/** What every run of the port-channel pipeline keeps: work is issued in FIFO order, flushes and
    semaphore waits return only after the work they cover, and no flush waiter is forgotten. */
module PortChannelSafety {
  import opened Trigger
  import opened PortChannel
  import Fifo

  // ---- reference: what the pushed triggers ask for ----

  /** The pushed triggers' fields, by FIFO position. */
  ghost function Requests(fifo: Fifo.State): (fs: seq<Fields>)
    ensures |fs| == |fifo.pushes|
  {
    seq(|fifo.pushes|, t requires 0 <= t < |fifo.pushes| => Decode(fifo.pushes[t].trigger))
  }

  /** How many of the requests signal semaphore `sem`. */
  ghost function Signals(fs: seq<Fields>, sem: nat): nat {
    if fs == [] then 0
    else
      var f := fs[|fs| - 1];
      Signals(fs[..|fs| - 1], sem) + if HasFlag(f.kind) && f.semaphoreId == sem then 1 else 0
  }

  ghost function WorkOf(pos: nat, f: Fields, token: nat): seq<Work> {
    (if HasData(f.kind) then [Write(pos, f)] else []) +
    (if HasFlag(f.kind) then [Signal(pos, f.semaphoreId, token)] else [])
  }

  ghost predicate OnConn(semConn: seq<nat>, f: Fields, c: nat) {
    f.semaphoreId < |semConn| && semConn[f.semaphoreId] == c
  }

  /** What the request at `pos` adds to connection `c`, if its signal carries `token`. */
  ghost function Adds(pos: nat, f: Fields, token: nat, semConn: seq<nat>, c: nat): seq<Work> {
    if OnConn(semConn, f, c) then WorkOf(pos, f, token) else []
  }

  /** All work the requests ask for on connection `c`, in FIFO order. */
  ghost function Issued(fs: seq<Fields>, semConn: seq<nat>, c: nat): seq<Work>
    decreases |fs|, 1
  {
    if fs == [] then [] else Issued(fs[..|fs| - 1], semConn, c) + LastAdds(fs, semConn, c)
  }

  /** What the last request adds: its signal counts on from those before it. */
  ghost function LastAdds(fs: seq<Fields>, semConn: seq<nat>, c: nat): seq<Work>
    requires fs != []
    decreases |fs|, 0
  {
    var f, work := fs[|fs| - 1], Issued(fs[..|fs| - 1], semConn, c);
    Adds(|fs| - 1, f, SignalsIn(work, |work|, f.semaphoreId) + 1, semConn, c)
  }

  lemma {:induction false} IssuedPrefix(fs: seq<Fields>, semConn: seq<nat>, c: nat, q: nat, m: nat)
    requires q <= m <= |fs|
    ensures Issued(fs[..q], semConn, c) <= Issued(fs[..m], semConn, c)
    decreases m
  {
    if q < m {
      IssuedPrefix(fs, semConn, c, q, m - 1);
      assert fs[..m][..m - 1] == fs[..m - 1];
    }
  }

  lemma SignalsNext(fs: seq<Fields>, sem: nat, t: nat)
    requires t < |fs|
    ensures Signals(fs[..t + 1], sem) ==
            Signals(fs[..t], sem) + if HasFlag(fs[t].kind) && fs[t].semaphoreId == sem then 1 else 0
  {
    assert fs[..t + 1][..t] == fs[..t];
  }

  lemma {:induction false} SignalsInSame(a: seq<Work>, b: seq<Work>, n: nat, sem: nat)
    requires n <= |a| && a <= b
    ensures SignalsIn(a, n, sem) == SignalsIn(b, n, sem)
  {
    if n > 0 { SignalsInSame(a, b, n - 1, sem); }
  }

  lemma {:induction false} SignalsInMono(work: seq<Work>, i: nat, n: nat, sem: nat)
    requires i <= n <= |work|
    ensures SignalsIn(work, i, sem) <= SignalsIn(work, n, sem)
    decreases n
  {
    if i < n { SignalsInMono(work, i, n - 1, sem); }
  }

  /** A request adds a signal of `sem` exactly if it asks for one. */
  lemma SignalsAdded(work: seq<Work>, pos: nat, f: Fields, token: nat, semConn: seq<nat>, sem: nat)
    requires sem < |semConn|
    ensures var work' := work + Adds(pos, f, token, semConn, semConn[sem]);
            SignalsIn(work', |work'|, sem) ==
            SignalsIn(work, |work|, sem) + if HasFlag(f.kind) && f.semaphoreId == sem then 1 else 0
  {
    SignalsInSame(work, work + Adds(pos, f, token, semConn, semConn[sem]), |work|, sem);
  }

  lemma {:induction false} SignalsIssuedUpTo(fs: seq<Fields>, t: nat, semConn: seq<nat>, sem: nat)
    requires sem < |semConn| && t <= |fs|
    ensures var work := Issued(fs[..t], semConn, semConn[sem]);
            SignalsIn(work, |work|, sem) == Signals(fs[..t], sem)
  {
    if t > 0 {
      var k := t - 1;
      SignalsIssuedUpTo(fs, k, semConn, sem);
      SignalsNext(fs, sem, k);
      var work := Issued(fs[..k], semConn, semConn[sem]);
      assert k + 1 == t && fs[..t][..k] == fs[..k];
      SignalsAdded(work, k, fs[k], SignalsIn(work, |work|, fs[k].semaphoreId) + 1, semConn, sem);
    }
  }

  /** The issued work holds exactly the requested signals of a semaphore. */
  lemma SignalsIssued(fs: seq<Fields>, semConn: seq<nat>, sem: nat)
    requires sem < |semConn|
    ensures var work := Issued(fs, semConn, semConn[sem]);
            SignalsIn(work, |work|, sem) == Signals(fs, sem)
  {
    SignalsIssuedUpTo(fs, |fs|, semConn, sem);
    assert fs[..|fs|] == fs;
  }

  lemma IssuedNext(fs: seq<Fields>, semConn: seq<nat>, c: nat, t: nat)
    requires t < |fs|
    ensures Issued(fs[..t + 1], semConn, c) ==
            Issued(fs[..t], semConn, c) + Adds(t, fs[t], Signals(fs[..t], fs[t].semaphoreId) + 1, semConn, c)
  {
    var n := t + 1;
    assert fs[..n][..t] == fs[..t];
    if OnConn(semConn, fs[t], c) { SignalsIssued(fs[..t], semConn, fs[t].semaphoreId); }
  }

  // ---- what the proxy keeps, given how far it is ----

  /** All work requested on `c` at positions below `q` has been applied. */
  ghost predicate CompletedBelow(px: Proxy, fs: seq<Fields>, c: nat, q: nat) {
    && c < |px.conns| && q <= |fs| && px.conns[c].applied <= |px.conns[c].posted|
    && Issued(fs[..q], px.semConn, c) <= px.conns[c].posted[..px.conns[c].applied]
  }

  ghost predicate CountsOk(conn: Conn) {
    conn.polled <= conn.applied <= |conn.posted| && conn.seen <= conn.applied
  }

  /** The published flush position is either the sentinel or covered by completed work. */
  ghost predicate PublishedOk(px: Proxy, fs: seq<Fields>, k: nat, c: nat)
    requires c < |px.conns|
  {
    if c in px.forced then px.conns[c].flushDone == SENTINEL
    else px.conns[c].flushDone <= k && CompletedBelow(px, fs, c, px.conns[c].flushDone)
  }

  ghost predicate PendingOk(px: Proxy, fs: seq<Fields>, k: nat, c: nat)
    requires c < |px.conns|
  {
    c in px.pending ==>
      && c !in px.forced
      && px.conns[c].flushDone <= px.pending[c] < k
      && (!px.conns[c].async ==> CompletedBelow(px, fs, c, px.pending[c] + 1))
  }

  ghost predicate IsFlush(px: Proxy, fs: seq<Fields>, c: nat, t: nat)
    requires t < |fs|
  {
    OnConn(px.semConn, fs[t], c) && HasSync(fs[t].kind)
  }

  /** Every handled flush is released or will be. */
  ghost predicate CoveredOk(px: Proxy, fs: seq<Fields>, k: nat, c: nat)
    requires c < |px.conns| && k <= |fs|
  {
    forall t: nat :: t < k && t < SENTINEL && IsFlush(px, fs, c, t) ==>
      px.conns[c].flushDone > t || (c in px.pending && px.pending[c] >= t)
  }

  ghost predicate ConnOk(px: Proxy, fs: seq<Fields>, m: nat, k: nat, extra: seq<Work>, c: nat)
    requires c < |px.conns| && k <= m <= |fs|
  {
    && CountsOk(px.conns[c])
    && px.conns[c].posted == Issued(fs[..m], px.semConn, c) + extra
    && PublishedOk(px, fs, k, c)
    && PendingOk(px, fs, k, c)
    && CoveredOk(px, fs, k, c)
  }

  ghost predicate ProxyOk(px: Proxy, fs: seq<Fields>, m: nat) {
    && WellFormed(px)
    && m <= |fs|
    && (forall t :: 0 <= t < |fs| ==> Known(px, fs[t]))
    && (forall sem: nat :: sem < |px.outbound| ==> px.outbound[sem] == Signals(fs[..m], sem))
    && (forall c :: c in px.pending ==> c < |px.conns|)
  }

  /** How far the proxy is: the requests so far, how many have had all their work posted, how
      many are handled, and whether the write of the one in hand is already posted. */
  datatype View = View(fs: seq<Fields>, posted: nat, handled: nat, half: bool)

  ghost predicate ViewOk(v: View) {
    v.handled <= v.posted <= |v.fs| && (v.half ==> v.posted < |v.fs|)
  }

  ghost function HalfPosted(px: Proxy, v: View, c: nat): seq<Work>
    requires ViewOk(v)
  {
    if v.half && OnConn(px.semConn, v.fs[v.posted], c) && HasData(v.fs[v.posted].kind)
    then [Write(v.posted, v.fs[v.posted])] else []
  }

  ghost predicate ViewConnOk(px: Proxy, v: View, c: nat)
    requires ViewOk(v)
  {
    c < |px.conns| && ConnOk(px, v.fs, v.posted, v.handled, HalfPosted(px, v, c), c)
  }

  ghost predicate ProxyInv(px: Proxy, v: View) {
    && ViewOk(v)
    && ProxyOk(px, v.fs, v.posted)
    && forall c: nat :: c < |px.conns| ==> ViewConnOk(px, v, c)
  }

  /** More requests change nothing about those already there. */
  lemma ConnOkExtends(px: Proxy, fs: seq<Fields>, fs': seq<Fields>, m: nat, k: nat, extra: seq<Work>, c: nat)
    requires c < |px.conns| && k <= m <= |fs| && fs <= fs'
    requires ConnOk(px, fs, m, k, extra, c)
    ensures ConnOk(px, fs', m, k, extra, c)
  {
    assert forall q :: 0 <= q <= |fs| ==> fs'[..q] == fs[..q];
    forall t: nat | t < k && t < SENTINEL && IsFlush(px, fs', c, t)
      ensures px.conns[c].flushDone > t || (c in px.pending && px.pending[c] >= t)
    {
      assert IsFlush(px, fs, c, t);
    }
  }

  lemma ProxyOkExtends(px: Proxy, fs: seq<Fields>, fs': seq<Fields>, m: nat)
    requires ProxyOk(px, fs, m) && fs <= fs' && forall t :: |fs| <= t < |fs'| ==> Known(px, fs'[t])
    ensures ProxyOk(px, fs', m)
  {
    assert fs'[..m] == fs[..m];
  }

  lemma RequestsGrow(px: Proxy, v: View, fs': seq<Fields>)
    requires ProxyInv(px, v) && v.fs <= fs' && forall t :: |v.fs| <= t < |fs'| ==> Known(px, fs'[t])
    ensures ProxyInv(px, v.(fs := fs'))
  {
    var v' := v.(fs := fs');
    ProxyOkExtends(px, v.fs, fs', v.posted);
    forall c: nat | c < |px.conns|
      ensures ViewConnOk(px, v', c)
    {
      assert ViewConnOk(px, v, c);
      ConnOkExtends(px, v.fs, fs', v.posted, v.handled, HalfPosted(px, v, c), c);
    }
  }

  /** Connection `c` has only gained posted or applied work. */
  ghost predicate OnlyGrows(px: Proxy, px': Proxy, c: nat)
    requires c < |px.conns|
  {
    && c < |px'.conns|
    && px'.semConn == px.semConn && px'.forced == px.forced
    && (c in px'.pending <==> c in px.pending)
    && (c in px.pending ==> px'.pending[c] == px.pending[c])
    && px.conns[c].posted <= px'.conns[c].posted && px.conns[c].applied <= px'.conns[c].applied
    && px'.conns[c].applied <= |px'.conns[c].posted|
    && px'.conns[c].flushDone == px.conns[c].flushDone && px'.conns[c].async == px.conns[c].async
  }

  lemma CompletedGrows(px: Proxy, px': Proxy, fs: seq<Fields>, c: nat, q: nat)
    requires c < |px.conns| && OnlyGrows(px, px', c) && CompletedBelow(px, fs, c, q)
    ensures CompletedBelow(px', fs, c, q)
  {
    var done, done' := px.conns[c].posted[..px.conns[c].applied], px'.conns[c].posted[..px'.conns[c].applied];
    assert done <= done';
  }

  /** The flush bookkeeping of a connection survives everything but flush steps. */
  lemma FlushOkGrows(px: Proxy, px': Proxy, fs: seq<Fields>, k: nat, c: nat)
    requires c < |px.conns| && k <= |fs| && OnlyGrows(px, px', c)
    requires PublishedOk(px, fs, k, c) && PendingOk(px, fs, k, c) && CoveredOk(px, fs, k, c)
    ensures PublishedOk(px', fs, k, c) && PendingOk(px', fs, k, c) && CoveredOk(px', fs, k, c)
  {
    if c !in px.forced { CompletedGrows(px, px', fs, c, px.conns[c].flushDone); }
    if c in px.pending && !px.conns[c].async { CompletedGrows(px, px', fs, c, px.pending[c] + 1); }
    forall t: nat | t < k && t < SENTINEL && IsFlush(px', fs, c, t)
      ensures px'.conns[c].flushDone > t || (c in px'.pending && px'.pending[c] >= t)
    {
      assert IsFlush(px, fs, c, t);
    }
  }

  // ---- handling a trigger ----

  lemma DataStep(px: Proxy, v: View)
    requires ProxyInv(px, v) && !v.half && v.posted == v.handled < |v.fs|
    ensures ProxyInv(DataPart(px, v.posted, v.fs[v.posted]), v.(half := true))
  {
    var px', v' := DataPart(px, v.posted, v.fs[v.posted]), v.(half := true);
    forall c: nat | c < |px'.conns|
      ensures ViewConnOk(px', v', c)
    {
      assert ViewConnOk(px, v, c);
      FlushOkGrows(px, px', v.fs, v.handled, c);
    }
  }

  /** The signal completes the work of its trigger. */
  lemma FlagPosts(px: Proxy, fs: seq<Fields>, t: nat, c: nat)
    requires ProxyOk(px, fs, t) && t < |fs| && c < |px.conns|
    requires px.conns[c].posted == Issued(fs[..t], px.semConn, c) +
               if OnConn(px.semConn, fs[t], c) && HasData(fs[t].kind) then [Write(t, fs[t])] else []
    ensures FlagPart(px, t, fs[t]).conns[c].posted == Issued(fs[..t + 1], px.semConn, c)
  {
    IssuedNext(fs, px.semConn, c, t);
    FlagAppends(px, t, fs[t], c);
    if OnConn(px.semConn, fs[t], c) {
      assert px.outbound[fs[t].semaphoreId] == Signals(fs[..t], fs[t].semaphoreId);
      DataThenFlag(Issued(fs[..t], px.semConn, c), t, fs[t], px.outbound[fs[t].semaphoreId] + 1);
    }
  }

  /** The flag part appends one signal to its own connection and nothing to any other. */
  lemma FlagAppends(px: Proxy, t: nat, f: Fields, c: nat)
    requires WellFormed(px) && Known(px, f) && c < |px.conns|
    ensures FlagPart(px, t, f).conns[c].posted == px.conns[c].posted +
              if OnConn(px.semConn, f, c) && HasFlag(f.kind)
              then [Signal(t, f.semaphoreId, px.outbound[f.semaphoreId] + 1)] else []
  {
    assert px.conns[c].posted + [] == px.conns[c].posted;
  }

  lemma DataThenFlag(work: seq<Work>, pos: nat, f: Fields, token: nat)
    ensures work + WorkOf(pos, f, token) ==
            (work + if HasData(f.kind) then [Write(pos, f)] else []) +
            if HasFlag(f.kind) then [Signal(pos, f.semaphoreId, token)] else []
  {
  }

  lemma FlagCounts(px: Proxy, fs: seq<Fields>, t: nat)
    requires ProxyOk(px, fs, t) && t < |fs|
    ensures ProxyOk(FlagPart(px, t, fs[t]), fs, t + 1)
  {
    var px' := FlagPart(px, t, fs[t]);
    forall sem: nat | sem < |px'.outbound|
      ensures px'.outbound[sem] == Signals(fs[..t + 1], sem)
    {
      SignalsNext(fs, sem, t);
    }
  }

  lemma FlagGrows(px: Proxy, f: Fields, t: nat, c: nat)
    requires WellFormed(px) && Known(px, f) && c < |px.conns| && CountsOk(px.conns[c])
    ensures OnlyGrows(px, FlagPart(px, t, f), c) && CountsOk(FlagPart(px, t, f).conns[c])
  {
  }

  lemma FlagConn(px: Proxy, v: View, c: nat)
    requires ProxyInv(px, v) && v.half && v.posted == v.handled && c < |px.conns|
    ensures ConnOk(FlagPart(px, v.posted, v.fs[v.posted]), v.fs, v.posted + 1, v.handled, [], c)
  {
    assert ViewConnOk(px, v, c);
    FlagPosts(px, v.fs, v.posted, c);
    FlagGrows(px, v.fs[v.posted], v.posted, c);
    FlushOkGrows(px, FlagPart(px, v.posted, v.fs[v.posted]), v.fs, v.handled, c);
  }

  lemma FlagStep(px: Proxy, v: View)
    requires ProxyInv(px, v) && v.half && v.posted == v.handled
    ensures ProxyInv(FlagPart(px, v.posted, v.fs[v.posted]), v.(half := false, posted := v.posted + 1))
  {
    var px', v' := FlagPart(px, v.posted, v.fs[v.posted]), v.(half := false, posted := v.posted + 1);
    FlagCounts(px, v.fs, v.posted);
    forall c: nat | c < |px'.conns|
      ensures ViewConnOk(px', v', c)
    {
      FlagConn(px, v, c);
    }
  }

  /** A completed prefix: nothing of the issued work lies beyond what was applied. */
  lemma AllApplied(px: Proxy, fs: seq<Fields>, m: nat, c: nat, q: nat)
    requires c < |px.conns| && q <= m <= |fs|
    requires px.conns[c].posted == Issued(fs[..m], px.semConn, c) && px.conns[c].applied == |px.conns[c].posted|
    ensures CompletedBelow(px, fs, c, q)
  {
    IssuedPrefix(fs, px.semConn, c, q, m);
  }

  /** Connections other than the flushed one, and triggers that are no flush. */
  lemma SyncElsewhere(px: Proxy, fs: seq<Fields>, t: nat, c: nat)
    requires ProxyOk(px, fs, t + 1) && t < |fs| && c < |px.conns|
    requires !IsFlush(px, fs, c, t)
    requires Blocks(px, fs[t]) ==> px.conns[ConnOf(px, fs[t])].applied == |px.conns[ConnOf(px, fs[t])].posted|
    requires ConnOk(px, fs, t + 1, t, [], c)
    ensures ConnOk(SyncPart(px, t, fs[t]), fs, t + 1, t + 1, [], c)
  {
    var px' := SyncPart(px, t, fs[t]);
    FlushOkGrows(px, px', fs, t, c);
    forall u: nat | u < t + 1 && u < SENTINEL && IsFlush(px', fs, c, u)
      ensures px'.conns[c].flushDone > u || (c in px'.pending && px'.pending[c] >= u)
    {
      assert u != t;
    }
  }

  /** The flush overwrites the pending position with a later one, which covers all earlier ones. */
  lemma SyncRecords(px: Proxy, fs: seq<Fields>, t: nat, c: nat)
    requires ProxyOk(px, fs, t + 1) && t < |fs| && c < |px.conns| && c !in px.forced
    requires IsFlush(px, fs, c, t)
    requires Blocks(px, fs[t]) ==> px.conns[c].applied == |px.conns[c].posted|
    requires ConnOk(px, fs, t + 1, t, [], c)
    ensures ConnOk(SyncPart(px, t, fs[t]), fs, t + 1, t + 1, [], c)
  {
    var px' := SyncPart(px, t, fs[t]);
    assert px'.pending[c] == t;
    assert CompletedBelow(px', fs, c, px'.conns[c].flushDone);
    if !px.conns[c].async {
      AllApplied(px', fs, t + 1, c, t + 1);
    }
    LatestCovers(px', fs, t, c);
  }

  /** A pending position covers every flush up to it. */
  lemma LatestCovers(px: Proxy, fs: seq<Fields>, t: nat, c: nat)
    requires c < |px.conns| && t < |fs| && c in px.pending && px.pending[c] == t
    ensures CoveredOk(px, fs, t + 1, c)
  {
  }

  ghost predicate MayFinish(px: Proxy, f: Fields)
    requires WellFormed(px) && Known(px, f)
  {
    var conn := px.conns[ConnOf(px, f)];
    Blocks(px, f) ==> conn.applied == |conn.posted|
  }

  lemma SyncConn(px: Proxy, v: View, c: nat)
    requires ProxyInv(px, v) && !v.half && v.posted == v.handled + 1 && px.forced == {} && c < |px.conns|
    requires MayFinish(px, v.fs[v.handled])
    ensures ConnOk(SyncPart(px, v.handled, v.fs[v.handled]), v.fs, v.posted, v.posted, [], c)
  {
    assert ViewConnOk(px, v, c);
    if IsFlush(px, v.fs, c, v.handled) {
      SyncRecords(px, v.fs, v.handled, c);
    } else {
      SyncElsewhere(px, v.fs, v.handled, c);
    }
  }

  lemma SyncStep(px: Proxy, v: View)
    requires ProxyInv(px, v) && !v.half && v.posted == v.handled + 1 && px.forced == {}
    requires MayFinish(px, v.fs[v.handled])
    ensures ProxyInv(SyncPart(px, v.handled, v.fs[v.handled]), v.(handled := v.posted))
  {
    var px', v' := SyncPart(px, v.handled, v.fs[v.handled]), v.(handled := v.posted);
    forall c: nat | c < |px'.conns|
      ensures ViewConnOk(px', v', c)
    {
      SyncConn(px, v, c);
    }
  }

  // ---- progress, completions, stopping ----

  /** Publishing: the queue is drained, so everything up to the recorded position is complete. */
  lemma ProgressConn(px: Proxy, fs: seq<Fields>, m: nat, k: nat, c: nat, w: nat)
    requires c < |px.conns| && k <= m <= |fs| && ConnOk(px, fs, m, k, [], c)
    requires c in px.pending && px.conns[c].polled + w <= px.conns[c].applied
    ensures ConnOk(ProgressPart(px, c, w), fs, m, k, [], c)
    ensures ProgressPart(px, c, w).conns[c].flushDone >= px.conns[c].flushDone
  {
    var px' := ProgressPart(px, c, w);
    if c !in px'.pending {
      if px.conns[c].async { AllApplied(px', fs, m, c, px.pending[c] + 1); }
      assert CompletedBelow(px', fs, c, px'.conns[c].flushDone);
      forall t: nat | t < k && t < SENTINEL && IsFlush(px', fs, c, t)
        ensures px'.conns[c].flushDone > t
      {
        assert IsFlush(px, fs, c, t);
      }
    } else {
      FlushOkGrows(px, px', fs, k, c);
    }
  }

  lemma ProgressStep(px: Proxy, v: View, c: nat, w: nat)
    requires ProxyInv(px, v) && !v.half
    requires c < |px.conns| && c in px.pending && px.conns[c].polled + w <= px.conns[c].applied
    ensures ProxyInv(ProgressPart(px, c, w), v)
  {
    var px' := ProgressPart(px, c, w);
    forall d: nat | d < |px'.conns|
      ensures ViewConnOk(px', v, d)
    {
      assert ViewConnOk(px, v, d);
      if d == c {
        ProgressConn(px, v.fs, v.posted, v.handled, c, w);
      } else {
        FlushOkGrows(px, px', v.fs, v.handled, d);
      }
    }
  }

  /** The network only applies posted work and shows applied work. */
  lemma NetworkStep(px: Proxy, v: View, c: nat, conn: Conn)
    requires ProxyInv(px, v) && c < |px.conns| && CountsOk(conn)
    requires conn == px.conns[c].(applied := conn.applied, seen := conn.seen) && px.conns[c].applied <= conn.applied
    ensures ProxyInv(SetConn(px, c, conn), v)
  {
    var px' := SetConn(px, c, conn);
    forall d: nat | d < |px'.conns|
      ensures ViewConnOk(px', v, d)
    {
      assert ViewConnOk(px, v, d);
      FlushOkGrows(px, px', v.fs, v.handled, d);
    }
  }

  lemma SentinelConn(px: Proxy, fs: seq<Fields>, m: nat, k: nat, c: nat)
    requires c < |px.conns| && k <= m <= |fs| && ConnOk(px, fs, m, k, [], c) && px.forced == {}
    ensures ConnOk(SentinelPart(px), fs, m, k, [], c)
  {
    var px' := SentinelPart(px);
    if c !in px.pending {
      assert CompletedBelow(px', fs, c, px'.conns[c].flushDone);
    }
    forall t: nat | t < k && t < SENTINEL && IsFlush(px', fs, c, t)
      ensures px'.conns[c].flushDone > t
    {
      assert IsFlush(px, fs, c, t);
    }
  }

  lemma SentinelStep(px: Proxy, v: View)
    requires ProxyInv(px, v) && !v.half && px.forced == {}
    ensures ProxyInv(SentinelPart(px), v)
  {
    var px' := SentinelPart(px);
    forall d: nat | d < |px'.conns|
      ensures ViewConnOk(px', v, d)
    {
      assert ViewConnOk(px, v, d);
      SentinelConn(px, v.fs, v.posted, v.handled, d);
    }
  }

  // ---- the system ----

  ghost predicate PastHandler(s: Sys) { s.fifo.consumer.Clear? || s.fifo.consumer.Advance? }

  /** How far the proxy thread is, read off its program counter. */
  ghost function ViewOf(s: Sys): View {
    var t, handling := s.fifo.tail, s.fifo.consumer.Handling?;
    View(Requests(s.fifo),
         if PastHandler(s) || (handling && (s.phase.AtSync? || s.phase.Handled?)) then t + 1 else t,
         if PastHandler(s) || (handling && s.phase.Handled?) then t + 1 else t,
         handling && s.phase.AtFlag?)
  }

  ghost predicate ModeOk(s: Sys) {
    && (s.mode != Running ==> s.fifo.consumer == Fifo.Idle)
    && (s.mode == Stopped ==> s.px.pending == map[])
    && (s.mode != Stopped ==> s.px.forced == {})
  }

  ghost predicate Inv(s: Sys) {
    Fifo.Inv(s.fifo) && ProxyInv(s.px, ViewOf(s)) && ModeOk(s)
  }

  lemma InitialInv(s: Sys)
    requires Initial(s)
    ensures Inv(s)
  {
    var size: nat :| size > 0 && s.fifo == Fifo.Initial(size);
    Fifo.InitialInv(size);
    assert Requests(s.fifo) == [];
    forall c: nat | c < |s.px.conns|
      ensures ViewConnOk(s.px, ViewOf(s), c)
    {
      assert Fresh(s.px.conns[c]);
    }
  }

  /** The position that the handler reads is the ticket its trigger was pushed with. */
  lemma PositionIsTicket(s: Sys)
    requires Fifo.Inv(s.fifo) && s.fifo.consumer.Handling?
    ensures s.fifo.tail < |s.fifo.pushes|
    ensures s.fifo.consumer.trigger == s.fifo.pushes[s.fifo.tail].trigger
    ensures Current(s) == Requests(s.fifo)[s.fifo.tail]
  {
  }

  /** Device steps only append requests and do not touch the consumer. */
  lemma DeviceGrows(px: Proxy, fifo: Fifo.State, e: Fifo.Event)
    requires IsDeviceEvent(px, e) && Fifo.Enabled(fifo, e)
    ensures var fifo' := Fifo.Apply(fifo, e);
            && fifo'.tail == fifo.tail && fifo'.consumer == fifo.consumer
            && Requests(fifo) <= Requests(fifo')
            && forall t :: |fifo.pushes| <= t < |fifo'.pushes| ==> Known(px, Requests(fifo')[t])
  {
    var fs, fs' := Requests(fifo), Requests(Fifo.Apply(fifo, e));
    if e.Take? {
      var f :| InRange(f) && Known(px, f) && e.trigger == Encode(f);
      InRangeDecode(f);
      assert fs' == fs + [f];
    } else {
      assert fs' == fs;
    }
  }

  lemma DeviceInv(s: Sys, e: Fifo.Event)
    requires Inv(s) && Enabled(s, Device(e))
    ensures Inv(Apply(s, Device(e)))
  {
    var s' := Apply(s, Device(e));
    Fifo.StepInv(s.fifo, e);
    DeviceGrows(s.px, s.fifo, e);
    RequestsGrow(s.px, ViewOf(s), Requests(s'.fifo));
    assert ViewOf(s') == ViewOf(s).(fs := Requests(s'.fifo));
  }

  lemma PollKeepsView(s: Sys, e: Fifo.Event)
    requires Enabled(s, Poll(e))
    ensures ViewOf(Apply(s, Poll(e))) == ViewOf(s)
  {
    assert Requests(Apply(s, Poll(e)).fifo) == Requests(s.fifo);
  }

  lemma PollInv(s: Sys, e: Fifo.Event)
    requires Inv(s) && Enabled(s, Poll(e))
    ensures Inv(Apply(s, Poll(e)))
  {
    Fifo.StepInv(s.fifo, e);
    PollKeepsView(s, e);
  }

  lemma HandlerInv(s: Sys, e: Event)
    requires Inv(s) && Enabled(s, e) && (e.HandleData? || e.HandleFlag? || e.HandleSync?)
    ensures Inv(Apply(s, e))
  {
    PositionIsTicket(s);
    var v := ViewOf(s);
    match e
    case HandleData =>
      DataStep(s.px, v);
      assert ViewOf(Apply(s, e)) == v.(half := true);
    case HandleFlag =>
      FlagStep(s.px, v);
      assert ViewOf(Apply(s, e)) == v.(half := false, posted := v.posted + 1);
    case HandleSync =>
      SyncStep(s.px, v);
      assert ViewOf(Apply(s, e)) == v.(handled := v.posted);
  }

  lemma NetworkInv(s: Sys, e: Event)
    requires Inv(s) && Enabled(s, e) && (e.Complete? || e.Arrive?)
    ensures Inv(Apply(s, e))
  {
    var v, conn := ViewOf(s), Apply(s, e).px.conns[e.c];
    assert CountsOk(conn) by { assert ViewConnOk(s.px, v, e.c); }
    NetworkStep(s.px, v, e.c, conn);
    assert ViewOf(Apply(s, e)) == v;
  }

  lemma StepInv(s: Sys, e: Event)
    requires Inv(s) && Enabled(s, e)
    ensures Inv(Apply(s, e))
  {
    match e
    case Device(fe) => DeviceInv(s, fe);
    case Poll(fe) => PollInv(s, fe);
    case HandleData | HandleFlag | HandleSync => HandlerInv(s, e);
    case Progress(c, w) => ProgressStep(s.px, ViewOf(s), c, w);
    case Complete(_) | Arrive(_) => NetworkInv(s, e);
    case Stop | FlushReturn(_) | WaitStart(_) | WaitReturn(_, _) =>
    case Sentinel => SentinelStep(s.px, ViewOf(s));
  }

  lemma {:induction false} RunInv(run: seq<Sys>)
    requires Run(run)
    ensures Inv(run[|run| - 1])
    decreases |run|
  {
    if |run| == 1 {
      InitialInv(run[0]);
    } else {
      RunInv(run[..|run| - 1]);
      var s, s' := run[|run| - 2], run[|run| - 2 + 1];
      assert Step(s, s');
      var e :| Enabled(s, e) && s' == Apply(s, e);
      StepInv(s, e);
    }
  }

  // ---- what returned waits were promised ----

  /** `pos` is the position of the `k`-th request that signals `sem`. */
  ghost predicate IsKthSignal(fs: seq<Fields>, sem: nat, k: nat, pos: nat) {
    pos < |fs| && HasFlag(fs[pos].kind) && fs[pos].semaphoreId == sem && Signals(fs[..pos + 1], sem) == k
  }

  /** All work on the semaphore's connection up to and including its `k`-th signal is applied. */
  ghost predicate WaitCovered(px: Proxy, fs: seq<Fields>, sem: nat, k: nat, pos: nat) {
    sem < |px.semConn| && IsKthSignal(fs, sem, k, pos) && CompletedBelow(px, fs, px.semConn[sem], pos + 1)
  }

  /** All work on the flush's connection at positions up to `p` is applied, or the proxy was stopped. */
  ghost predicate FlushCovered(px: Proxy, fs: seq<Fields>, p: nat) {
    && p < |fs| && Known(px, fs[p])
    && (px.semConn[fs[p].semaphoreId] in px.forced || CompletedBelow(px, fs, px.semConn[fs[p].semaphoreId], p + 1))
  }

  ghost predicate ReturnsOk(s: Sys) {
    var fs := Requests(s.fifo);
    && (forall p :: p in s.waits.flushed ==> FlushCovered(s.px, fs, p))
    && (forall w :: w in s.waits.waited ==> exists pos: nat :: WaitCovered(s.px, fs, w.0, w.1, pos))
  }

  /** Every step only adds posted and applied work. */
  ghost predicate ProxyGrows(px: Proxy, px': Proxy) {
    && px'.semConn == px.semConn && |px'.conns| == |px.conns| && px.forced <= px'.forced
    && forall c: nat :: c < |px.conns| ==> ConnGrows(px.conns[c], px'.conns[c])
  }

  ghost predicate ConnGrows(conn: Conn, conn': Conn) {
    conn.posted <= conn'.posted && conn.applied <= conn'.applied <= |conn'.posted|
  }

  lemma PartsGrow(px: Proxy, t: nat, f: Fields)
    requires WellFormed(px) && Known(px, f)
    requires forall c: nat :: c < |px.conns| ==> CountsOk(px.conns[c])
    ensures ProxyGrows(px, DataPart(px, t, f)) && ProxyGrows(px, FlagPart(px, t, f))
    ensures ProxyGrows(px, SyncPart(px, t, f))
  {
  }

  ghost predicate Grows(s: Sys, s': Sys) {
    Requests(s.fifo) <= Requests(s'.fifo) && ProxyGrows(s.px, s'.px)
  }

  lemma ProxyStepGrows(s: Sys, e: Event)
    requires WellFormed(s.px) && Enabled(s, e)
    requires forall c: nat :: c < |s.px.conns| ==> CountsOk(s.px.conns[c])
    ensures ProxyGrows(s.px, Apply(s, e).px)
  {
    if e.HandleData? || e.HandleFlag? || e.HandleSync? {
      PartsGrow(s.px, s.fifo.tail, Current(s));
    }
  }

  lemma StepGrows(s: Sys, e: Event)
    requires Inv(s) && Enabled(s, e)
    ensures Grows(s, Apply(s, e))
  {
    forall c: nat | c < |s.px.conns|
      ensures CountsOk(s.px.conns[c])
    {
      assert ViewConnOk(s.px, ViewOf(s), c);
    }
    ProxyStepGrows(s, e);
    if e.Device? {
      DeviceGrows(s.px, s.fifo, e.e);
    } else if e.Poll? {
      PollKeepsView(s, e.e);
    }
  }

  lemma CompletedStays(s: Sys, s': Sys, c: nat, q: nat)
    requires Grows(s, s') && CompletedBelow(s.px, Requests(s.fifo), c, q)
    ensures CompletedBelow(s'.px, Requests(s'.fifo), c, q)
  {
    assert Requests(s'.fifo)[..q] == Requests(s.fifo)[..q];
    assert ConnGrows(s.px.conns[c], s'.px.conns[c]);
    assert s.px.conns[c].posted[..s.px.conns[c].applied] <= s'.px.conns[c].posted[..s'.px.conns[c].applied];
  }

  lemma FlushStays(s: Sys, s': Sys, p: nat)
    requires Grows(s, s') && FlushCovered(s.px, Requests(s.fifo), p)
    ensures FlushCovered(s'.px, Requests(s'.fifo), p)
  {
    var c := s.px.semConn[Requests(s.fifo)[p].semaphoreId];
    if c !in s.px.forced { CompletedStays(s, s', c, p + 1); }
  }

  lemma WaitStays(s: Sys, s': Sys, sem: nat, k: nat, pos: nat)
    requires Grows(s, s') && WaitCovered(s.px, Requests(s.fifo), sem, k, pos)
    ensures WaitCovered(s'.px, Requests(s'.fifo), sem, k, pos)
  {
    assert Requests(s'.fifo)[..pos + 1] == Requests(s.fifo)[..pos + 1];
    CompletedStays(s, s', s.px.semConn[sem], pos + 1);
  }

  /** A published position covers every flush below it. */
  lemma FlushReturnsCovered(s: Sys, p: nat)
    requires Inv(s) && FlushMayReturn(s, p)
    ensures FlushCovered(s.px, Requests(s.fifo), p)
  {
    var fs := Requests(s.fifo);
    var c := s.px.semConn[fs[p].semaphoreId];
    assert ViewConnOk(s.px, ViewOf(s), c);
    if c !in s.px.forced {
      IssuedPrefix(fs, s.px.semConn, c, p + 1, s.px.conns[c].flushDone);
    }
  }

  // ---- semaphore tokens ----

  lemma {:induction false} FindKthSignal(fs: seq<Fields>, sem: nat, k: nat) returns (pos: nat)
    requires 1 <= k <= Signals(fs, sem)
    ensures IsKthSignal(fs, sem, k, pos)
    decreases |fs|
  {
    var init := fs[..|fs| - 1];
    if Signals(init, sem) >= k {
      pos := FindKthSignal(init, sem, k);
      assert fs[..pos + 1] == init[..pos + 1];
    } else {
      pos := |fs| - 1;
      assert fs[..pos + 1] == fs;
    }
  }

  /** The work up to a signal ends with that signal. */
  lemma EndsWithSignal(work: seq<Work>, pos: nat, f: Fields, token: nat, semConn: seq<nat>, c: nat)
    requires HasFlag(f.kind) && OnConn(semConn, f, c)
    ensures var work' := work + Adds(pos, f, token, semConn, c);
            work' != [] && work'[|work'| - 1] == Signal(pos, f.semaphoreId, token)
  {
  }

  /** Fewer than `k` signals precede the `k`-th, so a receiver that sees `k` sees all before it. */
  lemma SeenReachesKth(issued: seq<Work>, posted: seq<Work>, seen: nat, sem: nat, k: nat)
    requires issued != [] && issued[|issued| - 1].Signal? && issued[|issued| - 1].sem == sem
    requires SignalsIn(issued, |issued|, sem) == k
    requires issued <= posted && seen <= |posted| && SignalsIn(posted, seen, sem) >= k
    ensures |issued| <= seen
  {
    if seen < |issued| {
      SignalsInSame(issued, posted, |issued| - 1, sem);
      SignalsInMono(posted, seen, |issued| - 1, sem);
    }
  }

  /** The signals among a connection's posted work are those requested by the posted triggers. */
  lemma SignalsPosted(px: Proxy, v: View, sem: nat)
    requires ProxyInv(px, v) && sem < |px.semConn|
    ensures var posted := px.conns[px.semConn[sem]].posted;
            SignalsIn(posted, |posted|, sem) == Signals(v.fs[..v.posted], sem)
  {
    var c := px.semConn[sem];
    assert ViewConnOk(px, v, c);
    var work := Issued(v.fs[..v.posted], px.semConn, c);
    SignalsIssued(v.fs[..v.posted], px.semConn, sem);
    SignalsInSame(work, px.conns[c].posted, |work|, sem);
  }

  /** The work of the posted triggers lies at the front of what is posted, in counts that add up. */
  lemma PostedFacts(px: Proxy, v: View, sem: nat)
    requires ProxyInv(px, v) && sem < |px.semConn|
    ensures var conn := px.conns[px.semConn[sem]];
            && CountsOk(conn)
            && Issued(v.fs[..v.posted], px.semConn, px.semConn[sem]) <= conn.posted
            && Inbound(px, sem) <= Signals(v.fs[..v.posted], sem)
  {
    var conn := px.conns[px.semConn[sem]];
    assert ViewConnOk(px, v, px.semConn[sem]);
    SignalsPosted(px, v, sem);
    SignalsInMono(conn.posted, conn.seen, |conn.posted|, sem);
  }

  /** The `k`-th signal ends the work issued up to its request. */
  lemma KthSignalEnds(fs: seq<Fields>, semConn: seq<nat>, sem: nat, k: nat, pos: nat)
    requires sem < |semConn| && IsKthSignal(fs, sem, k, pos)
    ensures var issued := Issued(fs[..pos + 1], semConn, semConn[sem]);
            && issued != [] && issued[|issued| - 1] == Signal(pos, sem, k)
            && SignalsIn(issued, |issued|, sem) == k
  {
    IssuedNext(fs, semConn, semConn[sem], pos);
    SignalsNext(fs, sem, pos);
    SignalsIssued(fs[..pos + 1], semConn, sem);
    EndsWithSignal(Issued(fs[..pos], semConn, semConn[sem]), pos, fs[pos], k, semConn, semConn[sem]);
  }

  /** Where the `k`-th signal was requested, given that the receiver sees `k` of those posted. */
  lemma KthSeen(fs: seq<Fields>, m: nat, semConn: seq<nat>, sem: nat, k: nat, conn: Conn) returns (pos: nat)
    requires m <= |fs| && sem < |semConn| && CountsOk(conn)
    requires Issued(fs[..m], semConn, semConn[sem]) <= conn.posted
    requires 1 <= k <= SignalsIn(conn.posted, conn.seen, sem) <= Signals(fs[..m], sem)
    ensures IsKthSignal(fs, sem, k, pos)
    ensures Issued(fs[..pos + 1], semConn, semConn[sem]) <= conn.posted[..conn.applied]
  {
    pos := FindKthSignal(fs[..m], sem, k);
    assert fs[..m][..pos + 1] == fs[..pos + 1];
    IssuedPrefix(fs, semConn, semConn[sem], pos + 1, m);
    KthSignalEnds(fs, semConn, sem, k, pos);
    SeenReachesKth(Issued(fs[..pos + 1], semConn, semConn[sem]), conn.posted, conn.seen, sem, k);
    PrefixWithin(Issued(fs[..pos + 1], semConn, semConn[sem]), conn.posted, conn.applied);
  }

  lemma WaitReturnsCovered(px: Proxy, v: View, sem: nat, k: nat) returns (pos: nat)
    requires ProxyInv(px, v) && sem < |px.semConn| && 1 <= k <= Inbound(px, sem)
    ensures WaitCovered(px, v.fs, sem, k, pos)
  {
    PostedFacts(px, v, sem);
    pos := KthSeen(v.fs, v.posted, px.semConn, sem, k, px.conns[px.semConn[sem]]);
  }

  lemma PrefixWithin(a: seq<Work>, b: seq<Work>, n: nat)
    requires a <= b && |a| <= n <= |b|
    ensures a <= b[..n]
  {
  }

  // ---- theorems over runs ----

  lemma ReturnsStep(s: Sys, e: Event)
    requires Inv(s) && ReturnsOk(s) && Enabled(s, e)
    ensures ReturnsOk(Apply(s, e))
  {
    var s' := Apply(s, e);
    StepGrows(s, e);
    forall p | p in s'.waits.flushed
      ensures FlushCovered(s'.px, Requests(s'.fifo), p)
    {
      if p !in s.waits.flushed { FlushReturnsCovered(s, p); }
      FlushStays(s, s', p);
    }
    forall w | w in s'.waits.waited
      ensures exists pos: nat :: WaitCovered(s'.px, Requests(s'.fifo), w.0, w.1, pos)
    {
      var pos: nat;
      if w in s.waits.waited {
        pos :| WaitCovered(s.px, Requests(s.fifo), w.0, w.1, pos);
      } else {
        pos := WaitReturnsCovered(s.px, ViewOf(s), w.0, w.1);
      }
      WaitStays(s, s', w.0, w.1, pos);
    }
  }

  lemma {:induction false} RunReturns(run: seq<Sys>)
    requires Run(run)
    ensures ReturnsOk(run[|run| - 1])
    decreases |run|
  {
    if |run| > 1 {
      var e := LastStep(run);
      RunReturns(run[..|run| - 1]);
      ReturnsStep(run[|run| - 2], e);
    }
  }

  /** A flush pushed at position `p` returns only after every write and signal that triggers at
      positions up to `p` ask for on its connection has been applied, unless the proxy was stopped
      and its sentinel released the connection. */
  lemma FlushIsSafe(run: seq<Sys>, p: nat)
    requires Run(run) && p in run[|run| - 1].waits.flushed
    ensures var s := run[|run| - 1];
            var fs := Requests(s.fifo);
            && p < |fs| && Known(s.px, fs[p])
            && (s.mode != Stopped ==> CompletedBelow(s.px, fs, ConnOf(s.px, fs[p]), p + 1))
  {
    RunReturns(run);
    RunInv(run);
    assert FlushCovered(run[|run| - 1].px, Requests(run[|run| - 1].fifo), p);
  }

  /** When the wait with ticket `k` on a semaphore has returned, all work on its connection up to
      and including the trigger of the `k`-th signal has been applied. */
  lemma WaitIsSafe(run: seq<Sys>, sem: nat, k: nat) returns (pos: nat)
    requires Run(run) && (sem, k) in run[|run| - 1].waits.waited
    ensures var s := run[|run| - 1];
            var fs := Requests(s.fifo);
            && sem < |s.px.semConn| && IsKthSignal(fs, sem, k, pos)
            && CompletedBelow(s.px, fs, s.px.semConn[sem], pos + 1)
  {
    RunReturns(run);
    var w := (sem, k);
    pos :| WaitCovered(run[|run| - 1].px, Requests(run[|run| - 1].fifo), w.0, w.1, pos);
  }

  /** No flush is forgotten: each handled one has been released or is covered by a pending position,
      and once the proxy has stopped all have been released. */
  lemma NoLostWakeup(run: seq<Sys>, p: nat)
    requires Run(run) && p < SENTINEL
    requires var s := run[|run| - 1]; p < ViewOf(s).handled && p < |s.fifo.pushes| && HasSync(Requests(s.fifo)[p].kind)
    ensures var s := run[|run| - 1];
            var f := Requests(s.fifo)[p];
            && WellFormed(s.px) && Known(s.px, f)
            && var c := ConnOf(s.px, f);
               && (s.px.conns[c].flushDone > p || (c in s.px.pending && s.px.pending[c] >= p))
               && (s.mode == Stopped ==> s.px.conns[c].flushDone > p)
  {
    RunInv(run);
    var s := run[|run| - 1];
    var c := ConnOf(s.px, Requests(s.fifo)[p]);
    assert ViewConnOk(s.px, ViewOf(s), c);
    assert IsFlush(s.px, Requests(s.fifo), c, p);
  }

  lemma PublishGrows(s: Sys, e: Event, c: nat)
    requires Inv(s) && Enabled(s, e) && !e.Sentinel? && c < |s.px.conns|
    ensures c < |Apply(s, e).px.conns| && s.px.conns[c].flushDone <= Apply(s, e).px.conns[c].flushDone
  {
    assert ViewConnOk(s.px, ViewOf(s), c);
  }

  lemma StoppedIsFinal(s: Sys, e: Event)
    requires Enabled(s, e) && Apply(s, e).mode != Stopped
    ensures s.mode != Stopped && !e.Sentinel?
  {
  }

  lemma LastStep(run: seq<Sys>) returns (e: Event)
    requires Run(run) && |run| > 1
    ensures Run(run[..|run| - 1]) && Inv(run[|run| - 2])
    ensures Enabled(run[|run| - 2], e) && run[|run| - 1] == Apply(run[|run| - 2], e)
  {
    RunInv(run[..|run| - 1]);
    var s, s' := run[|run| - 2], run[|run| - 2 + 1];
    assert Step(s, s');
    e :| Enabled(s, e) && s' == Apply(s, e);
  }

  /** Until the stop sentinel, a connection's published flush position never decreases. */
  lemma {:induction false} PublishedNeverDecreases(run: seq<Sys>, i: nat, c: nat)
    requires Run(run) && i < |run| && run[|run| - 1].mode != Stopped && c < |run[i].px.conns|
    ensures c < |run[|run| - 1].px.conns|
    ensures run[i].px.conns[c].flushDone <= run[|run| - 1].px.conns[c].flushDone
    decreases |run|
  {
    if i < |run| - 1 {
      var e := LastStep(run);
      var s, before := run[|run| - 2], run[..|run| - 1];
      StoppedIsFinal(s, e);
      PublishedNeverDecreases(before, i, c);
      assert before[i] == run[i] && before[|before| - 1] == s;
      PublishGrows(s, e, c);
    }
  }
}
