/** Ordered receives: per (rank, tag), each deferred receive first forces the receive created before
    it, so that futures yield the messages in creation order whatever the order of `get` calls. */
module OrderedRecv {

  import opened Wrappers

  datatype Key = Key(rank: int, tag: int)

  /** What one receive yields: the message, or the exception that the future then stores. */
  datatype Outcome = Arrived(data: string) | Threw

  /** A future: its key, the receive it waits for first, and its result once it has run. */
  datatype Item = Item(key: Key, prev: Option<nat>, result: Option<Outcome>)

  /** The futures in creation order, the latest pending one per key, and how many receives have
      been made per key. */
  datatype State = State(items: seq<Item>, last: map<Key, nat>, received: map<Key, nat>)

  /** The n-th receive made for a key. */
  type Network = (Key, nat) -> Outcome

  function Received(s: State, key: Key): nat {
    if key in s.received then s.received[key] else 0
  }

  // ---- the operations ----

  /** The entry of a key unless it is ready; a ready entry is dropped. */
  function LastOf(s: State, key: Key): Option<nat> {
    if key in s.last && s.last[key] < |s.items| && s.items[s.last[key]].result == None
    then Some(s.last[key]) else None
  }

  function Create(s: State, key: Key): State {
    s.(items := s.items + [Item(key, LastOf(s, key), None)], last := s.last[key := |s.items|])
  }

  /** Receive for item `i`, then drop its entry if it is still the latest. An exception skips that. */
  function Receive(s: State, i: nat, net: Network): State
    requires i < |s.items|
  {
    var key := s.items[i].key;
    var outcome := net(key, Received(s, key));
    State(s.items[i := s.items[i].(result := Some(outcome))],
          if outcome.Arrived? && key in s.last && s.last[key] == i then s.last - {key} else s.last,
          s.received[key := Received(s, key) + 1])
  }

  predicate WellLinked(items: seq<Item>) {
    forall i :: 0 <= i < |items| && items[i].prev.Some? ==> items[i].prev.value < i
  }

  /** Forcing a future: force the one before it, then receive. */
  function Force(s: State, i: nat, net: Network): (s': State)
    requires i < |s.items| && WellLinked(s.items)
    ensures |s'.items| == |s.items| && WellLinked(s'.items)
    decreases i
  {
    if s.items[i].result.Some? then s
    else
      var s1 := if s.items[i].prev.Some? then Force(s, s.items[i].prev.value, net) else s;
      Receive(s1, i, net)
  }

  datatype Op = Recv(key: Key) | Get(item: nat)

  predicate Legal(s: State, op: Op) {
    WellLinked(s.items) && (op.Get? ==> op.item < |s.items|)
  }

  function Do(s: State, op: Op, net: Network): State
    requires Legal(s, op)
  {
    match op
    case Recv(key) => Create(s, key)
    case Get(i) => Force(s, i, net)
  }

  const START: State := State([], map[], map[])

  ghost predicate Run(net: Network, ops: seq<Op>, run: seq<State>) {
    && |run| == |ops| + 1 && run[0] == START
    && forall k :: 0 <= k < |ops| ==> Legal(run[k], ops[k]) && run[k + 1] == Do(run[k], ops[k], net)
  }

  // ---- creation order ----

  /** How many of the first `n` futures have this key. */
  function Rank(items: seq<Item>, key: Key, n: nat): nat
    requires n <= |items|
  {
    if n == 0 then 0 else Rank(items, key, n - 1) + if items[n - 1].key == key then 1 else 0
  }

  lemma {:induction false} RankSame(a: seq<Item>, b: seq<Item>, key: Key, n: nat)
    requires n <= |a| && n <= |b| && forall i :: 0 <= i < n ==> a[i].key == b[i].key
    ensures Rank(a, key, n) == Rank(b, key, n)
  {
    if n > 0 { RankSame(a, b, key, n - 1); }
  }

  lemma {:induction false} RankMono(items: seq<Item>, key: Key, m: nat, n: nat)
    requires m <= n <= |items|
    ensures Rank(items, key, m) <= Rank(items, key, n)
    ensures m < n && items[m].key == key ==> Rank(items, key, m) < Rank(items, key, n)
    decreases n
  {
    if m < n { RankMono(items, key, m, n - 1); }
  }

  // ---- the invariant ----

  /** The future is the one with this number among those of its key. */
  function Number(s: State, i: nat): nat
    requires i < |s.items|
  {
    Rank(s.items, s.items[i].key, i)
  }

  function Total(s: State, key: Key): nat { Rank(s.items, key, |s.items|) }

  /** It has run exactly if receives have reached its number, and then it holds that receive. */
  ghost predicate ResultOk(s: State, i: nat, net: Network)
    requires i < |s.items|
  {
    s.items[i].result == if Number(s, i) < Received(s, s.items[i].key)
                         then Some(net(s.items[i].key, Number(s, i))) else None
  }

  /** It waits for the previous future of its key, unless that one had already run. */
  ghost predicate LinkOk(s: State, i: nat)
    requires i < |s.items|
  {
    match s.items[i].prev
    case None => Number(s, i) <= Received(s, s.items[i].key)
    case Some(p) => p < i && s.items[p].key == s.items[i].key && Number(s, i) == Number(s, p) + 1
  }

  /** The entry of a key is its latest future; without an entry, all futures of the key have run. */
  ghost predicate LastOk(s: State, key: Key) {
    && Received(s, key) <= Total(s, key)
    && if key in s.last
       then s.last[key] < |s.items| && s.items[s.last[key]].key == key && Number(s, s.last[key]) + 1 == Total(s, key)
       else Received(s, key) == Total(s, key)
  }

  ghost predicate Inv(s: State, net: Network) {
    && (forall i: nat :: i < |s.items| ==> ResultOk(s, i, net))
    && (forall i: nat :: i < |s.items| ==> LinkOk(s, i))
    && forall key :: LastOk(s, key)
  }

  lemma InvLinked(s: State, net: Network)
    requires Inv(s, net)
    ensures WellLinked(s.items)
  {
    forall i | 0 <= i < |s.items| && s.items[i].prev.Some?
      ensures s.items[i].prev.value < i
    {
      assert LinkOk(s, i);
    }
  }

  lemma CreateInv(s: State, key: Key, net: Network)
    requires Inv(s, net)
    ensures Inv(Create(s, key), net)
  {
    var s' := Create(s, key);
    var n := |s.items|;
    forall i: nat | i < |s'.items|
      ensures ResultOk(s', i, net) && LinkOk(s', i)
    {
      RankSame(s.items, s'.items, s'.items[i].key, i);
      assert LastOk(s, key);
      if i < n {
        assert ResultOk(s, i, net) && LinkOk(s, i);
        if s.items[i].prev.Some? { RankSame(s.items, s'.items, s.items[i].key, s.items[i].prev.value); }
      } else if key in s.last {
        assert ResultOk(s, s.last[key], net);
        RankSame(s.items, s'.items, key, s.last[key]);
      }
    }
    forall k
      ensures LastOk(s', k)
    {
      assert LastOk(s, k);
      RankSame(s.items, s'.items, k, n);
      if k != key && k in s.last { RankSame(s.items, s'.items, k, s.last[k]); }
    }
  }

  /** What forcing future `i` amounts to: the receives of its key reach its number. */
  ghost predicate Reached(s: State, s': State, i: nat)
    requires i < |s.items| && |s'.items| == |s.items|
  {
    && (forall j :: 0 <= j < |s.items| ==> s'.items[j].key == s.items[j].key && s'.items[j].prev == s.items[j].prev)
    && forall key :: Received(s', key) ==
                     if key == s.items[i].key && Received(s, key) <= Number(s, i) then Number(s, i) + 1
                     else Received(s, key)
  }

  lemma ReceiveItems(s: State, i: nat, net: Network, j: nat)
    requires Inv(s, net) && i < |s.items| && Received(s, s.items[i].key) == Number(s, i) && j < |s.items|
    ensures ResultOk(Receive(s, i, net), j, net) && LinkOk(Receive(s, i, net), j)
  {
    var s', key := Receive(s, i, net), s.items[i].key;
    RankSame(s.items, s'.items, s.items[j].key, j);
    assert ResultOk(s, j, net) && LinkOk(s, j);
    if s.items[j].prev.Some? { RankSame(s.items, s'.items, s.items[j].key, s.items[j].prev.value); }
    if s.items[j].key == key {
      if i < j { RankMono(s.items, key, i, j); }
      if j < i { RankMono(s.items, key, j, i); }
    }
  }

  lemma ReceiveLast(s: State, i: nat, net: Network, key: Key)
    requires Inv(s, net) && i < |s.items| && Received(s, s.items[i].key) == Number(s, i)
    ensures LastOk(Receive(s, i, net), key)
  {
    var s' := Receive(s, i, net);
    assert LastOk(s, key);
    RankSame(s.items, s'.items, key, |s.items|);
    if key == s.items[i].key { RankMono(s.items, key, i, |s.items|); }
    if key in s.last { RankSame(s.items, s'.items, key, s.last[key]); }
  }

  lemma ReceiveInv(s: State, i: nat, net: Network)
    requires Inv(s, net) && i < |s.items| && Received(s, s.items[i].key) == Number(s, i)
    ensures Inv(Receive(s, i, net), net) && Reached(s, Receive(s, i, net), i)
  {
    var s' := Receive(s, i, net);
    forall j: nat | j < |s'.items|
      ensures ResultOk(s', j, net) && LinkOk(s', j)
    {
      ReceiveItems(s, i, net, j);
    }
    forall key
      ensures LastOk(s', key)
    {
      ReceiveLast(s, i, net, key);
    }
  }

  lemma {:induction false} ForceInv(s: State, i: nat, net: Network)
    requires Inv(s, net) && i < |s.items| && WellLinked(s.items)
    ensures Inv(Force(s, i, net), net) && Reached(s, Force(s, i, net), i)
    decreases i
  {
    assert ResultOk(s, i, net) && LinkOk(s, i);
    if s.items[i].result == None {
      var key, s1 := s.items[i].key, s;
      if s.items[i].prev.Some? {
        var p := s.items[i].prev.value;
        ForceInv(s, p, net);
        s1 := Force(s, p, net);
        RankSame(s.items, s1.items, key, i);
      }
      assert Received(s1, key) == Number(s1, i);
      ReceiveInv(s1, i, net);
    }
  }

  lemma {:induction false} RunInv(net: Network, ops: seq<Op>, run: seq<State>, k: nat)
    requires Run(net, ops, run) && k < |run|
    ensures Inv(run[k], net)
  {
    if k > 0 {
      RunInv(net, ops, run, k - 1);
      assert run[k - 1 + 1] == Do(run[k - 1], ops[k - 1], net);
      match ops[k - 1]
      case Recv(key) => CreateInv(run[k - 1], key, net);
      case Get(i) => ForceInv(run[k - 1], i, net);
    }
  }

  // ---- what callers get ----

  /** Callers may always create another future and get any existing one: no run gets into a state
      whose links would make the recursion of a wait go wrong. */
  lemma EveryCallIsLegal(net: Network, ops: seq<Op>, run: seq<State>)
    requires Run(net, ops, run)
    ensures forall key :: Legal(run[|ops|], Recv(key))
    ensures forall i: nat :: i < |run[|ops|].items| ==> Legal(run[|ops|], Get(i))
  {
    RunInv(net, ops, run, |ops|);
    InvLinked(run[|ops|], net);
  }

  /** How many receives the operations create, and how many of them for a key. */
  function Recvs(ops: seq<Op>): nat {
    if ops == [] then 0 else Recvs(ops[..|ops| - 1]) + if ops[|ops| - 1].Recv? then 1 else 0
  }

  function RecvsOf(ops: seq<Op>, key: Key): nat {
    if ops == [] then 0 else RecvsOf(ops[..|ops| - 1], key) + if ops[|ops| - 1] == Recv(key) then 1 else 0
  }

  /** An operation keeps the keys of the futures; a receive adds one future with its own key. */
  lemma DoKeys(s: State, op: Op, net: Network)
    requires Inv(s, net) && Legal(s, op)
    ensures var s' := Do(s, op, net);
            && |s'.items| == |s.items| + (if op.Recv? then 1 else 0)
            && (forall i :: 0 <= i < |s.items| ==> s'.items[i].key == s.items[i].key)
            && (op.Recv? ==> s'.items[|s.items|].key == op.key)
  {
    if op.Get? { ForceInv(s, op.item, net); }
  }

  lemma StepKeys(net: Network, ops: seq<Op>, run: seq<State>, k: nat)
    requires Run(net, ops, run) && k < |ops|
    ensures |run[k + 1].items| == |run[k].items| + if ops[k].Recv? then 1 else 0
    ensures forall i :: 0 <= i < |run[k].items| ==> run[k + 1].items[i].key == run[k].items[i].key
    ensures ops[k].Recv? ==> run[k + 1].items[|run[k].items|].key == ops[k].key
  {
    RunInv(net, ops, run, k);
    DoKeys(run[k], ops[k], net);
  }

  /** There is one future per receive, and as many per key as receives for that key. */
  lemma {:induction false} FuturesAreRecvs(net: Network, ops: seq<Op>, run: seq<State>, k: nat, key: Key)
    requires Run(net, ops, run) && k <= |ops|
    ensures |run[k].items| == Recvs(ops[..k]) && Total(run[k], key) == RecvsOf(ops[..k], key)
  {
    if k > 0 {
      var i := k - 1;
      FuturesAreRecvs(net, ops, run, i, key);
      StepKeys(net, ops, run, i);
      RankSame(run[i].items, run[i + 1].items, key, |run[i].items|);
      assert i + 1 == k && ops[..k][..i] == ops[..i];
    }
  }

  /** The future that operation `j` creates keeps its key and its number. */
  lemma {:induction false} FutureOfRecv(net: Network, ops: seq<Op>, run: seq<State>, j: nat, k: nat)
    requires Run(net, ops, run) && j < k <= |ops| && ops[j].Recv?
    ensures var i := Recvs(ops[..j]);
            && i < |run[k].items| && run[k].items[i].key == ops[j].key
            && Number(run[k], i) == RecvsOf(ops[..j], ops[j].key)
    decreases k
  {
    var i := Recvs(ops[..j]);
    if k == j + 1 {
      FuturesAreRecvs(net, ops, run, j, ops[j].key);
      StepKeys(net, ops, run, j);
      RankSame(run[j].items, run[j + 1].items, ops[j].key, i);
    } else {
      var m := k - 1;
      FutureOfRecv(net, ops, run, j, m);
      StepKeys(net, ops, run, m);
      RankSame(run[m].items, run[m + 1].items, ops[j].key, i);
    }
  }

  lemma GetYields(net: Network, ops: seq<Op>, run: seq<State>, k: nat, i: nat)
    requires Run(net, ops, run) && k < |ops| && ops[k] == Get(i)
    ensures i < |run[k].items| == |run[k + 1].items|
    ensures run[k + 1].items[i].result == Some(net(run[k].items[i].key, Number(run[k], i)))
  {
    var s, s' := run[k], run[k + 1];
    assert Legal(s, ops[k]) && s' == Do(s, ops[k], net);
    RunInv(net, ops, run, k);
    ForceInv(s, i, net);
    RankSame(s.items, s'.items, s.items[i].key, i);
    assert ResultOk(s', i, net);
  }

  /** In every run, whatever the order and repetition of the `get` calls: the future that a receive for
      a key created, after n other receives for that key, yields the n-th message of that key. */
  lemma NthFutureNthMessage(net: Network, ops: seq<Op>, run: seq<State>, j: nat, k: nat)
    requires Run(net, ops, run) && j < k < |ops| && ops[j].Recv? && ops[k] == Get(Recvs(ops[..j]))
    ensures var i := Recvs(ops[..j]);
            && i < |run[k + 1].items|
            && run[k + 1].items[i].result == Some(net(ops[j].key, RecvsOf(ops[..j], ops[j].key)))
  {
    FutureOfRecv(net, ops, run, j, k);
    GetYields(net, ops, run, k, Recvs(ops[..j]));
  }

  /** Every legal `get` is of a future that some earlier receive created. */
  lemma {:induction false} GetHasRecv(ops: seq<Op>, i: nat) returns (j: nat)
    requires i < Recvs(ops)
    ensures j < |ops| && ops[j].Recv? && Recvs(ops[..j]) == i
  {
    var n := |ops| - 1;
    if i < Recvs(ops[..n]) {
      j := GetHasRecv(ops[..n], i);
      assert ops[..n][..j] == ops[..j];
    } else {
      j := n;
    }
  }

  lemma GetIsCovered(net: Network, ops: seq<Op>, run: seq<State>, k: nat, i: nat) returns (j: nat)
    requires Run(net, ops, run) && k < |ops| && ops[k] == Get(i)
    ensures j < k && ops[j].Recv? && Recvs(ops[..j]) == i
  {
    assert Legal(run[k], ops[k]);
    FuturesAreRecvs(net, ops, run, k, Key(0, 0));
    j := GetHasRecv(ops[..k], i);
    assert ops[..k][..j] == ops[..j];
  }

  /** A key has an entry exactly while its latest future has not run or has thrown. */
  ghost predicate EntryOk(s: State, key: Key, net: Network) {
    key in s.last <==>
      Total(s, key) > 0 && !(Received(s, key) == Total(s, key) && net(key, Total(s, key) - 1).Arrived?)
  }

  lemma ReceiveEntry(s: State, i: nat, net: Network, key: Key)
    requires Inv(s, net) && i < |s.items| && Received(s, s.items[i].key) == Number(s, i) && EntryOk(s, key, net)
    ensures EntryOk(Receive(s, i, net), key, net)
  {
    var s' := Receive(s, i, net);
    assert LastOk(s, key);
    RankSame(s.items, s'.items, key, |s.items|);
    if key == s.items[i].key {
      RankMono(s.items, key, i, |s.items|);
      if key in s.last && s.last[key] != i { SameNumber(s, i, s.last[key]); }
    }
  }

  /** Futures of one key differ in their numbers. */
  lemma SameNumber(s: State, i: nat, j: nat)
    requires i < |s.items| && j < |s.items| && i != j && s.items[i].key == s.items[j].key
    ensures Number(s, i) != Number(s, j)
  {
    if i < j { RankMono(s.items, s.items[i].key, i, j); } else { RankMono(s.items, s.items[i].key, j, i); }
  }

  lemma {:induction false} ForceEntry(s: State, i: nat, net: Network, key: Key)
    requires Inv(s, net) && i < |s.items| && WellLinked(s.items) && EntryOk(s, key, net)
    ensures EntryOk(Force(s, i, net), key, net)
    decreases i
  {
    assert ResultOk(s, i, net) && LinkOk(s, i);
    if s.items[i].result == None {
      var s1 := s;
      if s.items[i].prev.Some? {
        var p := s.items[i].prev.value;
        ForceInv(s, p, net);
        ForceEntry(s, p, net, key);
        s1 := Force(s, p, net);
        RankSame(s.items, s1.items, s.items[i].key, i);
      }
      ReceiveEntry(s1, i, net, key);
    }
  }

  /** In every reachable state the map holds no entry of a finished receive. */
  lemma {:induction false} EntryIff(net: Network, ops: seq<Op>, run: seq<State>, k: nat, key: Key)
    requires Run(net, ops, run) && k <= |ops|
    ensures EntryOk(run[k], key, net)
  {
    if k > 0 {
      var s, s' := run[k - 1], run[k - 1 + 1];
      EntryIff(net, ops, run, k - 1, key);
      RunInv(net, ops, run, k - 1);
      assert Legal(s, ops[k - 1]) && s' == Do(s, ops[k - 1], net);
      match ops[k - 1]
      case Get(i) => ForceEntry(s, i, net, key);
      case Recv(_) =>
        assert LastOk(s, key);
        RankSame(s.items, s'.items, key, |s.items|);
    }
  }

  /** A new future waits for another exactly if some future of its key has not run yet. */
  lemma LinksToPending(net: Network, ops: seq<Op>, run: seq<State>, k: nat)
    requires Run(net, ops, run) && k < |ops| && ops[k].Recv?
    ensures |run[k + 1].items| == |run[k].items| + 1
    ensures run[k + 1].items[|run[k].items|].prev.Some? <==>
            exists i :: 0 <= i < |run[k].items| && run[k].items[i].key == ops[k].key && run[k].items[i].result == None
  {
    var s, key := run[k], ops[k].key;
    assert run[k + 1] == Do(s, ops[k], net);
    RunInv(net, ops, run, k);
    assert LastOk(s, key);
    if i :| 0 <= i < |s.items| && s.items[i].key == key && s.items[i].result == None {
      RankMono(s.items, key, i, |s.items|);
      assert ResultOk(s, i, net);
      assert ResultOk(s, s.last[key], net);
    }
  }

  /** In every reachable state the futures that have run are a prefix of those of their key. */
  lemma ResolvedIsPrefix(net: Network, ops: seq<Op>, run: seq<State>, k: nat, i: nat, j: nat)
    requires Run(net, ops, run) && k < |run| && i < j < |run[k].items|
    requires run[k].items[i].key == run[k].items[j].key && run[k].items[j].result.Some?
    ensures run[k].items[i].result.Some?
  {
    var s := run[k];
    RunInv(net, ops, run, k);
    RankMono(s.items, s.items[i].key, i, j);
    assert ResultOk(s, i, net) && ResultOk(s, j, net);
  }

  /** Once a future has run its result never changes, and `get` never disturbs other keys. */
  lemma ResultsAreStable(net: Network, ops: seq<Op>, run: seq<State>, k: nat, j: nat)
    requires Run(net, ops, run) && k < |ops| && j < |run[k].items|
    ensures j < |run[k + 1].items| && run[k + 1].items[j].key == run[k].items[j].key
    ensures run[k].items[j].result.Some? ==> run[k + 1].items[j].result == run[k].items[j].result
    ensures ops[k].Get? && ops[k].item < |run[k].items| && run[k].items[ops[k].item].key != run[k].items[j].key ==>
              run[k + 1].items[j].result == run[k].items[j].result
  {
    var s, s' := run[k], run[k + 1];
    assert Legal(s, ops[k]) && s' == Do(s, ops[k], net);
    RunInv(net, ops, run, k);
    RunInv(net, ops, run, k + 1);
    if ops[k].Get? {
      ForceInv(s, ops[k].item, net);
      RankSame(s.items, s'.items, s.items[j].key, j);
      assert ResultOk(s, j, net) && ResultOk(s', j, net);
    }
  }

  // ---- the communicator object ----

  class Communicator {
    var items: seq<Item>
    var lastRecvItems: map<Key, nat>
    var received: map<Key, nat>
    const net: Network

    function Contents(): State
      reads this
    {
      State(items, lastRecvItems, received)
    }

    constructor (network: Network)
      ensures Contents() == START && net == network
    {
      items, lastRecvItems, received, net := [], map[], map[], network;
    }

    method GetLastRecvItem(key: Key) returns (r: Option<nat>)
      requires key in lastRecvItems ==> lastRecvItems[key] < |items|
      modifies this`lastRecvItems
      ensures r == LastOf(old(Contents()), key)
      ensures lastRecvItems == if r == None then old(lastRecvItems) - {key} else old(lastRecvItems)
    {
      if key !in lastRecvItems {
        assert lastRecvItems - {key} == lastRecvItems;
        return None;
      }
      var i := lastRecvItems[key];
      if items[i].result.Some? {
        lastRecvItems := lastRecvItems - {key};
        return None;
      }
      return Some(i);
    }

    method MakeOrderedRecvFuture(key: Key) returns (i: nat)
      requires key in lastRecvItems ==> lastRecvItems[key] < |items|
      modifies this
      ensures i == old(|items|) && Contents() == Create(old(Contents()), key)
    {
      var prev := GetLastRecvItem(key);
      i := |items|;
      items := items + [Item(key, prev, None)];
      lastRecvItems := lastRecvItems[key := i];
      assert lastRecvItems == old(lastRecvItems)[key := i];
    }

    /** The future's wait: runs its deferred receive once, after that of the future before it. */
    method Wait(i: nat)
      requires i < |items| && WellLinked(items)
      modifies this
      ensures Contents() == Force(old(Contents()), i, net)
      decreases i
    {
      if items[i].result.Some? {
        return;
      }
      if items[i].prev.Some? {
        Wait(items[i].prev.value);
      }
      RunReceive(i);
    }

    /** The receive itself and, unless it throws, the cleanup of the entry. */
    method RunReceive(i: nat)
      requires i < |items|
      modifies this
      ensures Contents() == Receive(old(Contents()), i, net)
    {
      var key := items[i].key;
      var n := if key in received then received[key] else 0;
      var outcome := net(key, n);
      received := received[key := n + 1];
      if outcome.Arrived? && key in lastRecvItems && lastRecvItems[key] == i {
        lastRecvItems := lastRecvItems - {key};
      }
      items := items[i := items[i].(result := Some(outcome))];
    }
  }
}
