/** The pool of semaphore tokens: a bitmap of 64-bit words whose last word is cut by a tail mask,
    refining a set of live token indices. */
module TokenPool {

  import opened Arith

  // ---- the abstract pool ----

  /** Which of the `|memory|` tokens are live, and what each token's memory holds. */
  datatype Pool = Pool(live: set<nat>, memory: seq<nat>)

  datatype Op = Get | Release(token: nat) | Store(token: nat, value: nat)

  function Fresh(n: nat): Pool { Pool({}, seq(n, _ => 0)) }

  /** The lowest index at or above `from` that is not live, or the number of tokens. */
  function LowestFree(p: Pool, from: nat): (i: nat)
    requires from <= |p.memory|
    ensures from <= i <= |p.memory|
    ensures i < |p.memory| ==> i !in p.live
    ensures forall j :: from <= j < i ==> j in p.live
    decreases |p.memory| - from
  {
    if from == |p.memory| || from !in p.live then from else LowestFree(p, from + 1)
  }

  lemma LowestFreeIs(p: Pool, t: nat)
    requires t <= |p.memory| && (t < |p.memory| ==> t !in p.live)
    requires forall u: nat :: u < t ==> u in p.live
    ensures LowestFree(p, 0) == t
  {
    var i := LowestFree(p, 0);
    assert i < t ==> i in p.live;
  }

  function Take(p: Pool): Pool {
    var i := LowestFree(p, 0);
    if i < |p.memory| then p.(live := p.live + {i}) else p
  }

  /** The deleter clears the memory and then the bit. */
  function Drop(p: Pool, token: nat): Pool
    requires token < |p.memory|
  {
    Pool(p.live - {token}, p.memory[token := 0])
  }

  /** A token is released once, and stored through only while it is held. */
  predicate Legal(p: Pool, op: Op) {
    match op
    case Get => true
    case Release(token) => token in p.live && token < |p.memory|
    case Store(token, _) => token in p.live && token < |p.memory|
  }

  function Do(p: Pool, op: Op): Pool
    requires Legal(p, op)
  {
    match op
    case Get => Take(p)
    case Release(token) => Drop(p, token)
    case Store(token, value) => p.(memory := p.memory[token := value])
  }

  /** A run from the fresh pool of `n` tokens: every operation is legal where it happens. */
  ghost predicate Run(n: nat, ops: seq<Op>, run: seq<Pool>) {
    && |run| == |ops| + 1 && run[0] == Fresh(n)
    && forall k :: 0 <= k < |ops| ==> Legal(run[k], ops[k]) && run[k + 1] == Do(run[k], ops[k])
  }

  /** Live tokens exist, and memory that is not live is zero. */
  ghost predicate Inv(p: Pool, n: nat) {
    && |p.memory| == n
    && (forall t :: t in p.live ==> t < n)
    && forall t: nat :: t < n && t !in p.live ==> p.memory[t] == 0
  }

  lemma {:induction false} RunInv(n: nat, ops: seq<Op>, run: seq<Pool>, k: nat)
    requires Run(n, ops, run) && k < |run|
    ensures Inv(run[k], n)
  {
    if k > 0 {
      RunInv(n, ops, run, k - 1);
      assert run[k - 1 + 1] == Do(run[k - 1], ops[k - 1]);
    }
  }

  /** The pool is exhausted exactly when as many tokens are live as there are. */
  lemma FullIff(p: Pool, n: nat)
    requires Inv(p, n)
    ensures |p.live| <= n
    ensures LowestFree(p, 0) == n <==> |p.live| == n
  {
    SubsetSize(p.live, n);
    if LowestFree(p, 0) == n {
      assert p.live == Below(n);
    }
  }

  /** In every run: at most `n` tokens are live; a request fails exactly when `n` are; otherwise it
      gets the lowest index not live, so it differs from every live token, and its memory reads zero. */
  lemma GetIsCorrect(n: nat, ops: seq<Op>, run: seq<Pool>, k: nat)
    requires Run(n, ops, run) && k < |ops| && ops[k] == Get
    ensures |run[k].live| <= n
    ensures |run[k].live| == n ==> run[k + 1] == run[k]
    ensures |run[k].live| < n ==>
              exists t: nat | t < n && t !in run[k].live ::
                && (forall u: nat :: u < n && u !in run[k].live ==> t <= u)
                && run[k + 1].live == run[k].live + {t} && run[k + 1].memory == run[k].memory
                && run[k + 1].memory[t] == 0
  {
    RunInv(n, ops, run, k);
    FullIff(run[k], n);
    var t := LowestFree(run[k], 0);
    assert t < n ==> t !in run[k].live;
  }

  /** A release makes that token and no other free again, and clears its memory. */
  lemma ReleaseFrees(n: nat, ops: seq<Op>, run: seq<Pool>, k: nat, t: nat)
    requires Run(n, ops, run) && k < |ops| && ops[k] == Release(t)
    ensures t in run[k].live && run[k + 1].live == run[k].live - {t}
    ensures |run[k + 1].live| == |run[k].live| - 1
    ensures |run[k + 1].memory| == n && t < n && run[k + 1].memory[t] == 0
  {
    RunInv(n, ops, run, k);
    RunInv(n, ops, run, k + 1);
    assert Legal(run[k], ops[k]) && run[k + 1] == Do(run[k], ops[k]);
  }

  /** How many of the first `k` operations were requests that found a free token, and how many were
      releases. */
  ghost function Granted(n: nat, ops: seq<Op>, run: seq<Pool>, k: nat): nat
    requires k <= |ops| && |run| == |ops| + 1
  {
    if k == 0 then 0
    else Granted(n, ops, run, k - 1) + if ops[k - 1] == Get && |run[k - 1].live| < n then 1 else 0
  }

  function Released(ops: seq<Op>, k: nat): nat
    requires k <= |ops|
  {
    if k == 0 then 0 else Released(ops, k - 1) + if ops[k - 1].Release? then 1 else 0
  }

  /** The number of live tokens is that of granted requests less that of releases. */
  lemma {:induction false} LiveIsGrantedLessReleased(n: nat, ops: seq<Op>, run: seq<Pool>, k: nat)
    requires Run(n, ops, run) && k <= |ops|
    ensures |run[k].live| + Released(ops, k) == Granted(n, ops, run, k)
  {
    if k > 0 {
      var i := k - 1;
      LiveIsGrantedLessReleased(n, ops, run, i);
      assert Legal(run[i], ops[i]) && run[i + 1] == Do(run[i], ops[i]);
      match ops[i]
      case Get => GetIsCorrect(n, ops, run, i);
      case Release(t) => ReleaseFrees(n, ops, run, i, t);
      case Store(_, _) =>
    }
  }

  /** What was last stored through a token since it was handed out, or zero. */
  function LastStored(ops: seq<Op>, k: nat, t: nat): nat
    requires k <= |ops|
  {
    if k == 0 then 0
    else match ops[k - 1]
      case Store(u, value) => if u == t then value else LastStored(ops, k - 1, t)
      case Release(u) => if u == t then 0 else LastStored(ops, k - 1, t)
      case Get => LastStored(ops, k - 1, t)
  }

  /** A token's memory holds what its holder last stored. */
  lemma {:induction false} MemoryIsLastStored(n: nat, ops: seq<Op>, run: seq<Pool>, k: nat, t: nat)
    requires Run(n, ops, run) && k <= |ops| && t < n
    ensures |run[k].memory| == n && run[k].memory[t] == LastStored(ops, k, t)
  {
    if k > 0 {
      var i := k - 1;
      MemoryIsLastStored(n, ops, run, i, t);
      assert Legal(run[i], ops[i]) && run[i + 1] == Do(run[i], ops[i]);
    }
  }

  // ---- the bitmap ----

  const WIDTH: nat := 64

  /** The bits of a 64-bit word, lowest first. */
  type Word = w: seq<bool> | |w| == WIDTH witness seq(WIDTH, _ => false)

  const EMPTY: Word := seq(WIDTH, _ => false)

  const FULL: Word := seq(WIDTH, _ => true)

  function TailMask(n: nat): Word {
    seq(WIDTH, b => n % WIDTH == 0 || b < n % WIDTH)
  }

  function Words(n: nat): nat { (n + (WIDTH - 1)) / WIDTH }

  // The mask as the machine computes it: a shift and a decrement, or all ones.

  function Shifted(b: bv6): bv64 { (1 as bv64) << b }

  function MaskOf(r: bv6): bv64 { if r != 0 then Shifted(r) - 1 else 0xFFFF_FFFF_FFFF_FFFF }

  lemma IndexRoundTrip(b: nat)
    requires b < WIDTH
    ensures (b as bv6) as nat == b
  {
  }

  lemma IndexOrder(x: bv6, y: bv6)
    ensures x < y <==> x as nat < y as nat
  {
  }

  lemma MaskBits(r: bv6, b: bv6)
    ensures MaskOf(r) & Shifted(b) != 0 <==> r == 0 || b < r
  {
  }

  lemma IndexLess(r: nat, b: nat)
    requires r < WIDTH && b < WIDTH
    ensures (r as bv6 == 0 <==> r == 0) && (b as bv6 < r as bv6 <==> b < r)
  {
    IndexRoundTrip(r);
    IndexRoundTrip(b);
    IndexOrder(b as bv6, r as bv6);
  }

  lemma MaskBitsAt(r: nat, b: nat)
    requires r < WIDTH && b < WIDTH
    ensures MaskOf(r as bv6) & Shifted(b as bv6) != 0 <==> r == 0 || b < r
  {
    IndexLess(r, b);
    MaskBits(r as bv6, b as bv6);
  }

  lemma TailMaskAt(n: nat, r: nat, b: nat)
    requires r == n % WIDTH && b < WIDTH
    ensures TailMask(n)[b] <==> r == 0 || b < r
  {
  }

  /** The machine's mask for `n` tokens, where `r` are left over for the last word, has exactly the
      bits of `TailMask`, with and without a remainder. */
  lemma TailMaskBits(n: nat, r: nat, b: nat)
    requires r < WIDTH && r == n % WIDTH && b < WIDTH
    ensures MaskOf(r as bv6) & Shifted(b as bv6) != 0 <==> TailMask(n)[b]
  {
    MaskBitsAt(r, b);
    TailMaskAt(n, r, b);
  }

  /** The clear bits of a word that the mask allows. */
  function Holes(w: Word, mask: Word): (holes: Word)
    ensures forall b :: 0 <= b < WIDTH ==> holes[b] == (!w[b] && mask[b])
  {
    seq(WIDTH, b requires 0 <= b < WIDTH => !w[b] && mask[b])
  }

  method LowestBit(w: Word) returns (bit: nat)
    ensures bit <= WIDTH
    ensures bit < WIDTH ==> w[bit]
    ensures forall b :: 0 <= b < bit ==> !w[b]
  {
    bit := 0;
    while bit < WIDTH && !w[bit]
      invariant bit <= WIDTH && forall b :: 0 <= b < bit ==> !w[b]
    {
      bit := bit + 1;
    }
  }

  /** Word and bit of a token, and back. */
  lemma Position(n: nat, i: nat, b: nat)
    requires i < Words(n) && b < WIDTH
    ensures (WIDTH * i + b) / WIDTH == i && (WIDTH * i + b) % WIDTH == b
    ensures WIDTH * i + b < n <==> (i + 1 < Words(n) || TailMask(n)[b])
  {
  }

  lemma PositionOf(n: nat, t: nat)
    requires t < n
    ensures t / WIDTH < Words(n) && WIDTH * (t / WIDTH) + t % WIDTH == t
    ensures t / WIDTH + 1 < Words(n) || TailMask(n)[t % WIDTH]
  {
  }

  predicate Bit(words: seq<Word>, t: nat) {
    t / WIDTH < |words| && words[t / WIDTH][t % WIDTH]
  }

  function LiveTokens(words: seq<Word>, n: nat): set<nat> {
    set t: nat | t < n && Bit(words, t)
  }

  /** Setting or clearing one bit changes the membership of its token alone. */
  lemma OneBit(words: seq<Word>, n: nat, i: nat, b: nat, value: bool)
    requires |words| == Words(n) && i < |words| && b < WIDTH && WIDTH * i + b < n
    ensures var others := LiveTokens(words, n) - {WIDTH * i + b};
            LiveTokens(words[i := words[i][b := value]], n) ==
            if value then others + {WIDTH * i + b} else others
  {
    var words' := words[i := words[i][b := value]];
    Position(n, i, b);
    forall t: nat | t < n
      ensures Bit(words', t) <==> if t == WIDTH * i + b then value else Bit(words, t)
    {
      PositionOf(n, t);
    }
  }

  /** When the bits of word `i` below `bit` are no holes, their tokens are live. */
  lemma WordSearched(words: seq<Word>, n: nat, i: nat, bit: nat)
    requires |words| == Words(n) && i < |words| && bit <= WIDTH
    requires forall b :: 0 <= b < bit ==> words[i][b] || (i + 1 == |words| && !TailMask(n)[b])
    ensures forall t: nat :: t < n && WIDTH * i <= t < WIDTH * i + bit ==> t in LiveTokens(words, n)
  {
    forall t: nat | t < n && WIDTH * i <= t < WIDTH * i + bit
      ensures Bit(words, t)
    {
      Position(n, i, t - WIDTH * i);
    }
  }

  class TokenPool {
    const nToken: nat
    var allocationMap: seq<Word>
    var memory: seq<nat>

    ghost predicate Valid()
      reads this
    {
      |allocationMap| == Words(nToken) && |memory| == nToken
    }

    function Contents(): Pool
      reads this
    {
      Pool(LiveTokens(allocationMap, nToken), memory)
    }

    constructor (n: nat)
      ensures Valid() && nToken == n && Contents() == Fresh(n)
    {
      nToken, allocationMap, memory := n, seq(Words(n), _ => EMPTY), seq(n, _ => 0);
    }

    /** The search, word by word and then bit by bit: the position of the lowest token not live. */
    method Search() returns (i: nat, bit: nat)
      requires Valid()
      ensures i <= |allocationMap| && (i < |allocationMap| ==> bit < WIDTH)
      ensures LowestFree(Contents(), 0) == if i < |allocationMap| then WIDTH * i + bit else nToken
      ensures i < |allocationMap| ==> WIDTH * i + bit < nToken
    {
      i, bit := 0, WIDTH;
      while i < |allocationMap|
        invariant i <= |allocationMap|
        invariant forall t: nat :: t < nToken && t < WIDTH * i ==> t in Contents().live
      {
        var mask := if i + 1 == |allocationMap| then TailMask(nToken) else FULL;
        bit := LowestBit(Holes(allocationMap[i], mask));
        WordSearched(allocationMap, nToken, i, bit);
        if bit < WIDTH {
          Position(nToken, i, bit);
          assert !Bit(allocationMap, WIDTH * i + bit);
          LowestFreeIs(Contents(), WIDTH * i + bit);
          return;
        }
        i := i + 1;
      }
      assert nToken <= WIDTH * Words(nToken);
      LowestFreeIs(Contents(), nToken);
    }

    /** Returns the lowest free token, or none. */
    method GetToken() returns (ok: bool, token: nat)
      requires Valid()
      modifies this`allocationMap
      ensures Valid() && Contents() == Take(old(Contents()))
      ensures token == LowestFree(old(Contents()), 0) && ok == (token < nToken)
    {
      var i, bit := Search();
      ok, token := i < |allocationMap|, nToken;
      if ok {
        token := WIDTH * i + bit;
        OneBit(allocationMap, nToken, i, bit, true);
        allocationMap := allocationMap[i := allocationMap[i][bit := true]];
      }
    }

    method ReleaseToken(token: nat)
      requires Valid() && token in Contents().live
      modifies this
      ensures Valid() && Contents() == Drop(old(Contents()), token)
    {
      memory := memory[token := 0];
      PositionOf(nToken, token);
      var index, bit := token / WIDTH, token % WIDTH;
      OneBit(allocationMap, nToken, index, bit, false);
      allocationMap := allocationMap[index := allocationMap[index][bit := false]];
    }
  }
}
