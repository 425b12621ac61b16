/** The tokens that a semaphore's signals carry, and what the receive thread makes of them. */
module SignalForwarding {
  import Arith
  import opened Trigger
  import opened PortChannel
  import opened PortChannelSafety
  import opened PortChannelProgress
  import opened Wrappers
  import TokenForward

  /** The tokens of the signals of `sem` among the first `n` of the given work, in order. */
  ghost function TokensIn(work: seq<Work>, n: nat, sem: nat): seq<nat>
    requires n <= |work|
  {
    if n == 0 then []
    else
      var w := work[n - 1];
      TokensIn(work, n - 1, sem) + if w.Signal? && w.sem == sem then [w.token] else []
  }

  ghost function CountUp(n: nat): (r: seq<nat>)
    ensures |r| == n
  {
    seq(n, i requires 0 <= i => i + 1)
  }

  lemma {:induction false} TokensSame(a: seq<Work>, b: seq<Work>, n: nat, sem: nat)
    requires n <= |a| && a <= b
    ensures TokensIn(a, n, sem) == TokensIn(b, n, sem)
  {
    if n > 0 { TokensSame(a, b, n - 1, sem); }
  }

  lemma {:induction false} TokensPrefix(work: seq<Work>, i: nat, n: nat, sem: nat)
    requires i <= n <= |work|
    ensures TokensIn(work, i, sem) <= TokensIn(work, n, sem)
    decreases n
  {
    if i < n { TokensPrefix(work, i, n - 1, sem); }
  }

  lemma {:induction false} TokensLength(work: seq<Work>, n: nat, sem: nat)
    requires n <= |work|
    ensures |TokensIn(work, n, sem)| == SignalsIn(work, n, sem)
  {
    if n > 0 { TokensLength(work, n - 1, sem); }
  }

  lemma TokensAdded(work: seq<Work>, pos: nat, f: Fields, token: nat, semConn: seq<nat>, sem: nat)
    requires sem < |semConn|
    ensures var work' := work + Adds(pos, f, token, semConn, semConn[sem]);
            TokensIn(work', |work'|, sem) ==
            TokensIn(work, |work|, sem) + if HasFlag(f.kind) && f.semaphoreId == sem then [token] else []
  {
    TokensSame(work, work + Adds(pos, f, token, semConn, semConn[sem]), |work|, sem);
  }

  lemma CountUpNext(n: nat)
    ensures CountUp(n) + [n + 1] == CountUp(n + 1)
  {
  }

  /** The signals of a semaphore carry 1, 2, 3, and so on. */
  lemma {:induction false} TokensIssued(fs: seq<Fields>, n: nat, semConn: seq<nat>, sem: nat)
    requires sem < |semConn| && n <= |fs|
    ensures var work := Issued(fs[..n], semConn, semConn[sem]);
            TokensIn(work, |work|, sem) == CountUp(Signals(fs[..n], sem))
  {
    if n > 0 {
      var t := n - 1;
      TokensIssued(fs, t, semConn, sem);
      IssuedNext(fs, semConn, semConn[sem], t);
      SignalsNext(fs, sem, t);
      assert t + 1 == n;
      TokensAdded(Issued(fs[..t], semConn, semConn[sem]), t, fs[t], Signals(fs[..t], fs[t].semaphoreId) + 1,
                  semConn, sem);
      CountUpNext(Signals(fs[..t], sem));
    }
  }

  lemma TokensPosted(px: Proxy, v: View, sem: nat)
    requires ProxyInv(px, v) && sem < |px.semConn|
    ensures var posted := px.conns[px.semConn[sem]].posted;
            TokensIn(posted, |posted|, sem) == CountUp(Signals(v.fs[..v.posted], sem))
  {
    var c := px.semConn[sem];
    assert ViewConnOk(px, v, c);
    var work := Issued(v.fs[..v.posted], px.semConn, c);
    TokensIssued(v.fs, v.posted, px.semConn, sem);
    TokensSame(work, px.conns[c].posted, |work|, sem);
  }

  /** What has reached the receiver of a semaphore. */
  ghost function Visible(px: Proxy, sem: nat): seq<Work>
    requires WellFormed(px) && sem < |px.semConn|
  {
    var conn := px.conns[px.semConn[sem]];
    if conn.seen <= |conn.posted| then conn.posted[..conn.seen] else []
  }

  lemma TokensVisible(px: Proxy, v: View, sem: nat)
    requires ProxyInv(px, v) && sem < |px.semConn|
    ensures TokensIn(Visible(px, sem), |Visible(px, sem)|, sem) == CountUp(Inbound(px, sem))
  {
    var conn := px.conns[px.semConn[sem]];
    PostedFacts(px, v, sem);
    TokensPosted(px, v, sem);
    TokensSame(Visible(px, sem), conn.posted, conn.seen, sem);
    TokensPrefix(conn.posted, conn.seen, |conn.posted|, sem);
    TokensLength(conn.posted, conn.seen, sem);
  }

  lemma CountUpSmall(n: nat)
    requires n < Arith.WORD
    ensures TokenForward.Tokens(CountUp(n)) && TokenForward.SmallIncrements(CountUp(n))
  {
  }

  // ---- the receiver of a connection ----

  /** The tokens of all signals among the first `n` of the given work, whatever their semaphore. */
  ghost function AllTokens(work: seq<Work>, n: nat): seq<nat>
    requires n <= |work|
  {
    if n == 0 then [] else AllTokens(work, n - 1) + if work[n - 1].Signal? then [work[n - 1].token] else []
  }

  /** What the connection's one receive thread has stored: it sees every signal of the connection. */
  ghost function Forwarded(px: Proxy, sem: nat): nat
    requires WellFormed(px) && sem < |px.semConn|
  {
    var work := Visible(px, sem);
    TokenForward.Stored(TokenForward.ReceiveAll(TokenForward.Immediates(AllTokens(work, |work|))))
  }

  /** The stored token is the number of signals of `sem` that have arrived. */
  ghost predicate ForwardsIn(px: Proxy, sem: nat) {
    WellFormed(px) && sem < |px.semConn| && (Inbound(px, sem) < Arith.WORD ==> Forwarded(px, sem) == Inbound(px, sem))
  }

  /** No other semaphore that a trigger can name uses the connection of `sem`. */
  predicate Alone(semConn: seq<nat>, sem: nat)
    requires sem < |semConn|
  {
    forall other :: 0 <= other < |semConn| && other < BITS_10 && other != sem ==> semConn[other] != semConn[sem]
  }

  /** The signal is one of connection `c` and its semaphore fits the trigger's field. */
  ghost predicate Belongs(w: Work, semConn: seq<nat>, c: nat) {
    w.Signal? ==> w.sem < |semConn| && w.sem < BITS_10 && semConn[w.sem] == c
  }

  lemma AddsBelong(pos: nat, f: Fields, token: nat, semConn: seq<nat>, c: nat, i: nat)
    requires f.semaphoreId < BITS_10 && i < |Adds(pos, f, token, semConn, c)|
    ensures Belongs(Adds(pos, f, token, semConn, c)[i], semConn, c)
  {
  }

  lemma {:induction false} IssuedBelongs(fs: seq<Fields>, t: nat, semConn: seq<nat>, c: nat, i: nat)
    requires t <= |fs| && forall u :: 0 <= u < |fs| ==> fs[u].semaphoreId < BITS_10
    requires i < |Issued(fs[..t], semConn, c)|
    ensures Belongs(Issued(fs[..t], semConn, c)[i], semConn, c)
  {
    if t > 0 {
      var k := t - 1;
      IssuedNext(fs, semConn, c, k);
      assert k + 1 == t;
      var before, token := Issued(fs[..k], semConn, c), Signals(fs[..k], fs[k].semaphoreId) + 1;
      if i < |before| {
        IssuedBelongs(fs, k, semConn, c, i);
      } else {
        AddsBelong(k, fs[k], token, semConn, c, i - |before|);
      }
    }
  }

  lemma PostedBelongs(px: Proxy, v: View, c: nat, i: nat)
    requires ProxyInv(px, v) && c < |px.conns| && i < |px.conns[c].posted|
    requires forall u :: 0 <= u < |v.fs| ==> v.fs[u].semaphoreId < BITS_10
    ensures Belongs(px.conns[c].posted[i], px.semConn, c)
  {
    assert ViewConnOk(px, v, c);
    if i < |Issued(v.fs[..v.posted], px.semConn, c)| { IssuedBelongs(v.fs, v.posted, px.semConn, c, i); }
  }

  lemma {:induction false} OwnTokens(work: seq<Work>, n: nat, sem: nat)
    requires n <= |work| && forall i :: 0 <= i < |work| && work[i].Signal? ==> work[i].sem == sem
    ensures AllTokens(work, n) == TokensIn(work, n, sem)
  {
    if n > 0 { OwnTokens(work, n - 1, sem); }
  }

  lemma VisibleIsOwn(px: Proxy, v: View, sem: nat)
    requires ProxyInv(px, v) && sem < |px.semConn| && Alone(px.semConn, sem)
    requires forall u :: 0 <= u < |v.fs| ==> v.fs[u].semaphoreId < BITS_10
    ensures AllTokens(Visible(px, sem), |Visible(px, sem)|) == CountUp(Inbound(px, sem))
  {
    var work := Visible(px, sem);
    forall i | 0 <= i < |work| && work[i].Signal?
      ensures work[i].sem == sem
    {
      PostedBelongs(px, v, px.semConn[sem], i);
    }
    OwnTokens(work, |work|, sem);
    TokensVisible(px, v, sem);
  }

  lemma CountUpRebuilt(n: nat)
    requires n < Arith.WORD
    ensures TokenForward.Stored(TokenForward.ReceiveAll(TokenForward.Immediates(CountUp(n)))) == n
  {
    CountUpSmall(n);
    var ts := CountUp(n);
    if n > 0 {
      TokenForward.RebuiltWhenSlow(ts, n - 1);
      assert TokenForward.Immediates(ts)[..n] == TokenForward.Immediates(ts);
    }
  }

  // ---- building the semaphores of a service ----

  /** Semaphores are built one after the other, each on the connection it names. Building one on a
      forwarding connection starts that connection's receive thread; assigning a second thread while
      the first can still be joined ends the process, and the service keeps every semaphore alive. */
  function Construct(forwarding: set<nat>, requests: seq<nat>): Option<seq<nat>> {
    if requests == [] then Some([])
    else
      var built, c := Construct(forwarding, requests[..|requests| - 1]), requests[|requests| - 1];
      if built == None || (c in forwarding && c in built.value) then None else Some(built.value + [c])
  }

  ghost predicate NamedOnce(forwarding: set<nat>, requests: seq<nat>) {
    forall i, j :: 0 <= i < j < |requests| && requests[j] in forwarding ==> requests[i] != requests[j]
  }

  lemma NamedOnceNext(forwarding: set<nat>, before: seq<nat>, c: nat)
    ensures NamedOnce(forwarding, before + [c]) <==>
            NamedOnce(forwarding, before) && !(c in forwarding && c in before)
  {
    var requests := before + [c];
    if NamedOnce(forwarding, requests) {
      forall i, j | 0 <= i < j < |before| && before[j] in forwarding
        ensures before[i] != before[j]
      {
        assert requests[i] != requests[j];
      }
      assert c in forwarding ==> forall i :: 0 <= i < |before| ==> before[i] != c by {
        assert forall i :: 0 <= i < |before| ==> requests[i] == before[i];
        assert requests[|before|] == c;
      }
    }
  }

  /** The process survives if and only if no forwarding connection is named twice. */
  lemma {:induction false} ConstructIff(forwarding: set<nat>, requests: seq<nat>)
    ensures Construct(forwarding, requests).Some? <==> NamedOnce(forwarding, requests)
    ensures Construct(forwarding, requests).Some? ==> Construct(forwarding, requests).value == requests
  {
    if requests != [] {
      var before, c := requests[..|requests| - 1], requests[|requests| - 1];
      assert requests == before + [c];
      ConstructIff(forwarding, before);
      NamedOnceNext(forwarding, before, c);
    }
  }

  /** So a semaphore of a forwarding connection has it to itself. */
  lemma BuiltAlone(forwarding: set<nat>, requests: seq<nat>, sem: nat)
    requires Construct(forwarding, requests).Some? && sem < |requests| && requests[sem] in forwarding
    ensures Alone(requests, sem)
  {
    ConstructIff(forwarding, requests);
  }

  /** Forwarding by low halves is as good as remote atomics: after any run of a service that could be
      built, the token that the receive thread of a forwarding connection has stored is the number of
      its semaphore's signals that have arrived. */
  lemma ForwardedIsInbound(run: seq<Sys>, forwarding: set<nat>, sem: nat)
    requires Run(run) && Construct(forwarding, Last(run).px.semConn).Some?
    requires sem < |Last(run).px.semConn| && Last(run).px.semConn[sem] in forwarding
    ensures ForwardsIn(Last(run).px, sem)
  {
    RunInv(run);
    var s := Last(run);
    BuiltAlone(forwarding, s.px.semConn, sem);
    if Inbound(s.px, sem) < Arith.WORD {
      VisibleIsOwn(s.px, ViewOf(s), sem);
      CountUpRebuilt(Inbound(s.px, sem));
    }
  }

  // ---- direct updates beside a semaphore ----

  /** What reaches the receive thread: a signal of the connection's semaphore, or the value of an
      update that a caller made on the connection itself. */
  datatype Update = Signalled | Direct(value: nat)

  function SignalCount(updates: seq<Update>): nat {
    if updates == [] then 0
    else SignalCount(updates[..|updates| - 1]) + if updates[|updates| - 1].Signalled? then 1 else 0
  }

  /** A signal carries the next count, a direct update its own value. */
  function Carried(before: seq<Update>, u: Update): nat {
    if u.Signalled? then SignalCount(before) + 1 else u.value
  }

  function Received(updates: seq<Update>): TokenForward.Receiver {
    if updates == [] then TokenForward.Receiver(0, 0)
    else
      var before := updates[..|updates| - 1];
      TokenForward.Receive(Received(before), TokenForward.Immediate(Carried(before, updates[|updates| - 1])))
  }

  /** After every update the stored token is the number of signals so far. */
  ghost predicate AlwaysForwards(updates: seq<Update>) {
    && TokenForward.Stored(Received(updates)) == SignalCount(updates)
    && (updates != [] ==> AlwaysForwards(updates[..|updates| - 1]))
  }

  /** Every direct update carries, in its low half, the number of signals before it. */
  ghost predicate Harmless(updates: seq<Update>) {
    updates == [] ||
    (var before, u := updates[..|updates| - 1], updates[|updates| - 1];
     && Harmless(before)
     && (u.Direct? ==> TokenForward.Immediate(u.value) == TokenForward.Immediate(SignalCount(before))))
  }

  /** A direct update is taken for the count so far exactly if it has the same low half. */
  lemma DirectIff(n: nat, value: nat)
    requires n < Arith.WORD
    ensures var r := TokenForward.Receive(TokenForward.Holding(n), TokenForward.Immediate(value));
            && (TokenForward.Stored(r) == n <==> TokenForward.Immediate(value) == TokenForward.Immediate(n))
            && (TokenForward.Immediate(value) == TokenForward.Immediate(n) ==> r == TokenForward.Holding(n))
  {
    var low, high := n % TokenForward.LOW, n - n % TokenForward.LOW;
    assert high % TokenForward.LOW == 0;
  }

  /** Beside direct updates on the connection, the receive thread always has the number of signals if
      and only if each of these updates carries that number in its low half. */
  lemma {:induction false} ForwardsIffHarmless(updates: seq<Update>)
    requires SignalCount(updates) < Arith.WORD
    ensures AlwaysForwards(updates) <==> Harmless(updates)
    ensures Harmless(updates) ==> Received(updates) == TokenForward.Holding(SignalCount(updates))
  {
    if updates != [] {
      var before, u := updates[..|updates| - 1], updates[|updates| - 1];
      var n := SignalCount(before);
      ForwardsIffHarmless(before);
      match u
      case Signalled => TokenForward.RebuildsIff(n, n + 1);
      case Direct(value) => DirectIff(n, value);
    }
  }

  /** Two signals and a direct update to one: the decrease is taken for a wrap-around. */
  lemma DirectUpdateExample(updates: seq<Update>)
    requires updates == [Signalled, Signalled, Direct(1)]
    ensures SignalCount(updates) == 2 && TokenForward.Stored(Received(updates)) == 0x1_0000_0001
    ensures !AlwaysForwards(updates)
  {
    assert updates[..2] == [Signalled, Signalled] && updates[..2][..1] == [Signalled] && updates[..2][..1][..0] == [];
    assert Received(updates[..2][..1]) == TokenForward.Receiver(1, 0);
    assert Received(updates[..2]) == TokenForward.Receiver(2, 0);
  }
}
