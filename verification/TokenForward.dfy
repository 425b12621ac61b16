/** Signal forwarding without remote atomics: the sender puts the low 32 bits of a 64-bit token
    into an immediate, and the receive thread rebuilds the token by detecting wrap-around. */
module TokenForward {

  import opened Arith

  const LOW: nat := 0x1_0000_0000

  /** The receive thread's registers: the last immediate and the accumulated high half. */
  datatype Receiver = Receiver(last: nat, high: nat)

  ghost predicate Valid(r: Receiver) { r.last < LOW && r.high < WORD && r.high % LOW == 0 }

  /** The immediate that carries a token. */
  function Immediate(token: nat): nat { token % LOW }

  function Receive(r: Receiver, imm: nat): Receiver {
    Receiver(imm, if imm < r.last then (r.high + LOW) % WORD else r.high)
  }

  /** The value that the receive thread stores: the halves do not overlap. */
  function Stored(r: Receiver): nat { r.high + r.last }

  function ReceiveAll(imms: seq<nat>): Receiver {
    if imms == [] then Receiver(0, 0) else Receive(ReceiveAll(imms[..|imms| - 1]), imms[|imms| - 1])
  }

  /** The receive loop, storing one value per completion. */
  method ForwardLoop(imms: seq<nat>) returns (stored: seq<nat>)
    requires forall i :: 0 <= i < |imms| ==> imms[i] < LOW
    ensures |stored| == |imms|
    ensures forall i :: 0 <= i < |imms| ==> stored[i] == Stored(ReceiveAll(imms[..i + 1]))
  {
    var last: nat, high: nat := 0, 0;
    stored := [];
    for i := 0 to |imms|
      invariant |stored| == i
      invariant Receiver(last, high) == ReceiveAll(imms[..i])
      invariant forall j :: 0 <= j < i ==> stored[j] == Stored(ReceiveAll(imms[..j + 1]))
    {
      assert imms[..i + 1][..i] == imms[..i];
      if imms[i] < last {
        high := (high + LOW) % WORD;
      }
      last := imms[i];
      stored := stored + [high + last];
    }
    assert imms[..|imms|] == imms;
  }

  /** The difference of two tokens as the sender's 64-bit arithmetic sees it. */
  function Increment(before: nat, after: nat): nat
    requires before < WORD && after < WORD
  {
    if after >= before then after - before else after + WORD - before
  }

  /** The registers after token `t` has been rebuilt correctly. */
  function Holding(t: nat): Receiver { Receiver(t % LOW, t - t % LOW) }

  lemma Halves(t: nat)
    requires t < WORD
    ensures t == (t / LOW) * LOW + t % LOW && t / LOW < LOW
    ensures Holding(t) == Receiver(t % LOW, (t / LOW) * LOW)
  {
  }

  /** One immediate rebuilds the next token if and only if the token grew by less than 2^32. */
  lemma RebuildsIff(before: nat, after: nat)
    requires before < WORD && after < WORD
    ensures Stored(Receive(Holding(before), Immediate(after))) == after <==> Increment(before, after) < LOW
    ensures Increment(before, after) < LOW ==> Receive(Holding(before), Immediate(after)) == Holding(after)
  {
    Halves(before);
    Halves(after);
    RebuildsHalves(before / LOW, before % LOW, after / LOW, after % LOW);
  }

  lemma RebuildsHalves(bh: nat, bl: nat, ah: nat, al: nat)
    requires bh < LOW && bl < LOW && ah < LOW && al < LOW
    ensures var r := Receive(Receiver(bl, bh * LOW), al);
            && (Stored(r) == ah * LOW + al <==> Increment(bh * LOW + bl, ah * LOW + al) < LOW)
            && (Increment(bh * LOW + bl, ah * LOW + al) < LOW ==> r == Receiver(al, ah * LOW))
  {
    if al < bl {
      if bh + 1 == LOW {
        assert (bh * LOW + LOW) % WORD == 0;
      } else {
        assert bh * LOW + LOW < WORD;
        assert (bh * LOW + LOW) % WORD == bh * LOW + LOW;
      }
    }
  }

  ghost predicate Tokens(ts: seq<nat>) { forall i :: 0 <= i < |ts| ==> ts[i] < WORD }

  /** The token before token `i`; the receive thread starts from zero. */
  function Before(ts: seq<nat>, i: nat): nat
    requires i < |ts|
  {
    if i == 0 then 0 else ts[i - 1]
  }

  ghost predicate SmallIncrements(ts: seq<nat>)
    requires Tokens(ts)
  {
    forall i: nat :: i < |ts| ==> SmallAt(ts, i)
  }

  ghost predicate SmallAt(ts: seq<nat>, i: nat)
    requires Tokens(ts) && i < |ts|
  {
    Increment(Before(ts, i), ts[i]) < LOW
  }

  function Immediates(ts: seq<nat>): (r: seq<nat>)
    ensures |r| == |ts|
  {
    seq(|ts|, i requires 0 <= i < |ts| => Immediate(ts[i]))
  }

  /** What the receive thread stores for token `i` of the sequence. */
  function StoredAt(ts: seq<nat>, i: nat): nat
    requires i < |ts|
  {
    Stored(ReceiveAll(Immediates(ts)[..i + 1]))
  }

  ghost predicate RebuiltAt(ts: seq<nat>, i: nat)
    requires i < |ts|
  {
    StoredAt(ts, i) == ts[i]
  }

  lemma ReceiveNext(ts: seq<nat>, n: nat)
    requires n < |ts|
    ensures ReceiveAll(Immediates(ts)[..n + 1]) == Receive(ReceiveAll(Immediates(ts)[..n]), Immediate(ts[n]))
  {
    assert Immediates(ts)[..n + 1][..n] == Immediates(ts)[..n];
  }

  /** The first `n` tokens are reproduced, and grow slowly. */
  ghost predicate Reproduced(ts: seq<nat>, n: nat)
    requires n <= |ts|
  {
    n == 0 || (Reproduced(ts, n - 1) && RebuiltAt(ts, n - 1))
  }

  ghost predicate Slow(ts: seq<nat>, n: nat)
    requires Tokens(ts) && n <= |ts|
  {
    n == 0 || (Slow(ts, n - 1) && SmallAt(ts, n - 1))
  }

  lemma {:induction false} PrefixIff(ts: seq<nat>, n: nat)
    requires Tokens(ts) && n <= |ts|
    ensures Reproduced(ts, n) <==> Slow(ts, n)
    ensures Slow(ts, n) ==> ReceiveAll(Immediates(ts)[..n]) == Holding(if n == 0 then 0 else ts[n - 1])
  {
    if n > 0 {
      PrefixIff(ts, n - 1);
      if Slow(ts, n - 1) {
        ReceiveNext(ts, n - 1);
        RebuildsIff(Before(ts, n - 1), ts[n - 1]);
      }
    }
  }

  lemma {:induction false} SlowMeans(ts: seq<nat>, n: nat)
    requires Tokens(ts) && n <= |ts|
    ensures Slow(ts, n) <==> forall i: nat :: i < n ==> SmallAt(ts, i)
  {
    if n > 0 { SlowMeans(ts, n - 1); }
  }

  lemma {:induction false} ReproducedFrom(ts: seq<nat>, n: nat)
    requires n <= |ts| && forall i: nat :: i < |ts| ==> RebuiltAt(ts, i)
    ensures Reproduced(ts, n)
  {
    if n > 0 {
      ReproducedFrom(ts, n - 1);
      assert RebuiltAt(ts, n - 1);
    }
  }

  lemma RebuiltWhenSlow(ts: seq<nat>, i: nat)
    requires Tokens(ts) && SmallIncrements(ts) && i < |ts|
    ensures RebuiltAt(ts, i)
  {
    SlowMeans(ts, i + 1);
    PrefixIff(ts, i + 1);
  }

  /** For every sequence of 64-bit tokens: the receive thread reproduces the whole sequence from the
      low halves if and only if each token exceeds its predecessor, starting from zero, by less
      than 2^32 in 64-bit arithmetic. */
  lemma ReproducesIff(ts: seq<nat>)
    requires Tokens(ts)
    ensures (forall i: nat :: i < |ts| ==> RebuiltAt(ts, i)) <==> SmallIncrements(ts)
  {
    if SmallIncrements(ts) {
      forall i: nat | i < |ts| ensures RebuiltAt(ts, i) { RebuiltWhenSlow(ts, i); }
    } else if forall i: nat :: i < |ts| ==> RebuiltAt(ts, i) {
      ReproducedFrom(ts, |ts|);
      PrefixIff(ts, |ts|);
      SlowMeans(ts, |ts|);
    }
  }

  /** A first token of 2^32 has a zero low half and is stored as zero. */
  lemma LargeIncrementExample(ts: seq<nat>)
    requires ts == [LOW]
    ensures Tokens(ts) && StoredAt(ts, 0) == 0 && !RebuiltAt(ts, 0)
  {
    assert |Immediates(ts)| == 1 && Immediates(ts)[0] == 0;
    assert Immediates(ts)[..1] == [0] && [0][..0] == [];
  }
}
