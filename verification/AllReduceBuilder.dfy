/** The loops that create the channels and emit every rank's operations. */
module AllReduceBuilder {
  import opened Arith
  import opened AllReduceProgram
  import opened Wrappers

  datatype Error = KeyError | IndexError | OutOfBounds | RankMismatch | EmptyReduce | EmptyBarrier

  datatype Result<+T> = Success(value: T) | Failure(error: Error)

  datatype Channel = Channel(dst: nat, src: nat)
  datatype Channels = Channels(memory: map<(nat, nat), Channel>, port: map<(nat, nat), Channel>)

  /** The first exception raised, if any; building stops there. */
  function First(a: Option<Error>, b: Option<Error>): Option<Error> { if a.Some? then a else b }

  function Finish<T>(raised: Option<Error>, value: T): Result<T> {
    if raised.Some? then Failure(raised.value) else Success(value)
  }

  /** `buffer[start : start + width]`: slicing checks the end against the buffer's size. */
  function SliceError(size: int, start: int, width: int): Option<Error> {
    if start + width > size then Some(OutOfBounds) else None
  }

  /** Looks up a channel and compares it with the ranks of the chunks it is to move. */
  function LookupError(channels: map<(nat, nat), Channel>, key: (nat, nat), dst: nat, src: nat): Option<Error> {
    if key !in channels then Some(KeyError)
    else if channels[key] != Channel(dst, src) then Some(RankMismatch)
    else None
  }

  /** A thread block group exists for each of the other devices. */
  function GroupError(gpus: nat, self: nat, peer: nat): Option<Error>
    requires peer != self
  {
    if Unskip(self, peer) < gpus - 1 then None else Some(IndexError)
  }

  /** A reduction needs at least one chunk besides its own. */
  function ReduceError(others: seq<nat>): Option<Error> {
    if others == [] then Some(EmptyReduce) else None
  }

  /** The barrier joins the first thread block and those of the groups of the other devices. */
  method EmitBarrier(gpus: nat, groupSize: int) returns (raised: Option<Error>)
    requires gpus >= 1
    ensures raised == if gpus >= 2 && groupSize < 0 then Some(EmptyBarrier) else None
  {
    var blocks := 1 + (gpus - 1) * groupSize;
    if gpus >= 2 && groupSize < 0 {
      MulStep(0, gpus - 1, -groupSize);
      assert (gpus - 1) * -groupSize == -((gpus - 1) * groupSize);
    }
    raised := if blocks <= 0 then Some(EmptyBarrier) else None;
  }

  /** What building raises: the first reduction, the barrier and the second reduction in turn. */
  function BuildError(sh: Shape, groupSize: int): Option<Error> {
    if sh.gpus < 2 then Some(EmptyReduce)
    else if groupSize < 0 then Some(EmptyBarrier)
    else if sh.nodes < 2 then Some(EmptyReduce)
    else None
  }

  /** Operations that run on a thread block group rather than on the first thread block. */
  predicate Grouped(op: Op) { !op.Barrier? && !op.PortPut? }

  /** The operations that reach some thread block: a group without thread blocks takes none. */
  function Scheduled(ops: seq<Op>, groupSize: int): seq<Op> {
    if ops == [] then []
    else
      var last := ops[|ops| - 1];
      Scheduled(ops[..|ops| - 1], groupSize) + if Grouped(last) && groupSize <= 0 then [] else [last]
  }

  lemma {:induction false} ScheduledLength(ops: seq<Op>, groupSize: int)
    ensures |Scheduled(ops, groupSize)| <= |ops|
    ensures groupSize >= 1 ==> Scheduled(ops, groupSize) == ops
  {
    if ops != [] { ScheduledLength(ops[..|ops| - 1], groupSize); }
  }

  /** Every operation of a rank is scheduled if and only if the groups have thread blocks. */
  lemma CompleteIff(sh: Shape, n: nat, g: nat, groupSize: int)
    requires Valid(sh) && RankInRange(sh, n, g)
    ensures Scheduled(ProgramOf(sh, n, g), groupSize) == ProgramOf(sh, n, g) <==> groupSize >= 1
  {
    var ops := ProgramOf(sh, n, g);
    ScheduledLength(ops, groupSize);
    if groupSize <= 0 {
      assert ops[|ops| - 1].Unpack?;
      ScheduledLength(ops[..|ops| - 1], groupSize);
    }
  }

  function Clamp(x: nat, low: nat, high: nat): nat {
    if x < low then low else if x < high then x else high
  }

  lemma {:induction false} LeftOfPrefix(sh: Shape, n: nat, g: nat, groupSize: int, k: nat)
    requires Valid(sh) && RankInRange(sh, n, g) && groupSize <= 0 && k <= ProgramLength(sh)
    ensures var ops, low, high := ProgramOf(sh, n, g), sh.gpus + 1, sh.gpus + sh.nodes + 1;
            Scheduled(ops[..k], groupSize) == ops[low..Clamp(k, low, high)]
  {
    if k > 0 {
      LeftOfPrefix(sh, n, g, groupSize, k - 1);
      var ops := ProgramOf(sh, n, g);
      assert ops[..k][..k - 1] == ops[..k - 1];
      assert ops[..k][k - 1] == OpAt(sh, n, g, k - 1);
    }
  }

  /** Without thread blocks in the groups only the barrier and the sends to the other nodes are left. */
  lemma LeftWithoutGroups(sh: Shape, n: nat, g: nat, groupSize: int)
    requires Valid(sh) && RankInRange(sh, n, g) && groupSize <= 0
    ensures Scheduled(ProgramOf(sh, n, g), groupSize) ==
            ProgramOf(sh, n, g)[sh.gpus + 1..sh.gpus + sh.nodes + 1]
  {
    var ops := ProgramOf(sh, n, g);
    LeftOfPrefix(sh, n, g, groupSize, |ops|);
    assert ops[..|ops|] == ops;
  }

  /** Building with groups of size zero succeeds, and drops operations of every rank. */
  lemma EmptyGroupExample(sh: Shape, n: nat, g: nat)
    requires sh == Shape(2, 2) && RankInRange(sh, n, g)
    ensures BuildError(sh, 0) == None && Scheduled(ProgramOf(sh, n, g), 0) != ProgramOf(sh, n, g)
  {
    CompleteIff(sh, n, g, 0);
  }

  method Schedule(ops: seq<Op>, groupSize: int) returns (scheduled: seq<Op>)
    ensures scheduled == Scheduled(ops, groupSize)
  {
    scheduled := [];
    for i := 0 to |ops|
      invariant scheduled == Scheduled(ops[..i], groupSize)
    {
      assert ops[..i + 1][..i] == ops[..i];
      if !Grouped(ops[i]) || groupSize > 0 {
        scheduled := scheduled + [ops[i]];
      }
    }
    assert ops[..|ops|] == ops;
  }

  lemma SmallMod(x: nat, m: nat)
    requires x < m
    ensures x % m == x
  {
  }

  /** The rank of the same device on another node; the reduction modulo the world size does nothing. */
  function PeerNodeRank(sh: Shape, q: nat, g: nat): (r: nat)
    requires RankInRange(sh, q, g)
    ensures r == RankId(sh, q, g)
  {
    RankIdBound(sh, q, g);
    SmallMod(RankId(sh, q, g), TotalGpus(sh));
    RankId(sh, q, g) % TotalGpus(sh)
  }

  ghost predicate HasMemory(sh: Shape, c: Channels, n: nat, g: nat, p: nat) {
    (RankId(sh, n, p), RankId(sh, n, g)) in c.memory
  }

  ghost predicate HasPort(sh: Shape, c: Channels, n: nat, g: nat, q: nat) {
    (RankId(sh, n, g), RankId(sh, q, g)) in c.port
  }

  /** Memory channels are keyed by (destination, source), port channels by (source, destination). */
  ghost predicate Keyed(c: Channels) {
    && (forall k :: k in c.memory ==> c.memory[k] == Channel(k.0, k.1))
    && (forall k :: k in c.port ==> c.port[k] == Channel(k.1, k.0))
  }

  /** Every channel that rank (n, g) sends on exists. */
  ghost predicate RankChannels(sh: Shape, c: Channels, n: nat, g: nat) {
    && (forall p: nat :: p < sh.gpus && p != g ==> HasMemory(sh, c, n, g, p))
    && (forall q: nat :: q < sh.nodes && q != n ==> HasPort(sh, c, n, g, q))
  }

  ghost predicate Grows(c: Channels, c': Channels) {
    c.memory.Keys <= c'.memory.Keys && c.port.Keys <= c'.port.Keys
  }

  lemma RankChannelsGrow(sh: Shape, c: Channels, c': Channels, n: nat, g: nat)
    requires RankChannels(sh, c, n, g) && Grows(c, c')
    ensures RankChannels(sh, c', n, g)
  {
    forall p: nat | p < sh.gpus && p != g ensures HasMemory(sh, c', n, g, p) { assert HasMemory(sh, c, n, g, p); }
    forall q: nat | q < sh.nodes && q != n ensures HasPort(sh, c', n, g, q) { assert HasPort(sh, c, n, g, q); }
  }

  method AddMemoryChannels(sh: Shape, c: Channels, n: nat, g: nat) returns (c': Channels)
    requires Keyed(c)
    ensures Keyed(c') && Grows(c, c')
    ensures forall p: nat :: p < sh.gpus && p != g ==> HasMemory(sh, c', n, g, p)
  {
    c' := c;
    var me := RankId(sh, n, g);
    for p: nat := 0 to sh.gpus
      invariant Keyed(c') && Grows(c, c')
      invariant forall p': nat :: p' < p && p' != g ==> HasMemory(sh, c', n, g, p')
    {
      if p != g {
        ghost var before := c';
        var peer := RankId(sh, n, p);
        c' := c'.(memory := c'.memory[(peer, me) := Channel(peer, me)]);
        forall p': nat | p' < p && p' != g
          ensures HasMemory(sh, c', n, g, p')
        {
          assert HasMemory(sh, before, n, g, p');
        }
      }
    }
  }

  method AddPortChannels(sh: Shape, c: Channels, n: nat, g: nat) returns (c': Channels)
    requires Keyed(c) && g < sh.gpus
    ensures Keyed(c') && Grows(c, c')
    ensures forall q: nat :: q < sh.nodes && q != n ==> HasPort(sh, c', n, g, q)
  {
    c' := c;
    var me := RankId(sh, n, g);
    for q: nat := 0 to sh.nodes
      invariant Keyed(c') && Grows(c, c')
      invariant forall q': nat :: q' < q && q' != n ==> HasPort(sh, c', n, g, q')
    {
      if q != n {
        ghost var before := c';
        var peer := PeerNodeRank(sh, q, g);
        c' := c'.(port := c'.port[(me, peer) := Channel(peer, me)]);
        forall q': nat | q' < q && q' != n
          ensures HasPort(sh, c', n, g, q')
        {
          assert HasPort(sh, before, n, g, q');
        }
      }
    }
  }

  /** The channels of one rank. */
  method AddChannels(sh: Shape, c: Channels, n: nat, g: nat) returns (c': Channels)
    requires RankInRange(sh, n, g) && Keyed(c)
    ensures Keyed(c') && Grows(c, c') && RankChannels(sh, c', n, g)
  {
    var m := AddMemoryChannels(sh, c, n, g);
    c' := AddPortChannels(sh, m, n, g);
    forall p: nat | p < sh.gpus && p != g
      ensures HasMemory(sh, c', n, g, p)
    {
      assert HasMemory(sh, m, n, g, p);
    }
  }

  method BuildChannels(sh: Shape) returns (c: Channels)
    ensures Keyed(c)
    ensures forall n: nat, g: nat :: RankInRange(sh, n, g) ==> RankChannels(sh, c, n, g)
  {
    c := Channels(map[], map[]);
    for n: nat := 0 to sh.nodes
      invariant Keyed(c)
      invariant forall n': nat, g': nat :: n' < n && g' < sh.gpus ==> RankChannels(sh, c, n', g')
    {
      for g: nat := 0 to sh.gpus
        invariant Keyed(c)
        invariant forall n': nat, g': nat :: (n' < n && g' < sh.gpus) || (n' == n && g' < g) ==>
                    RankChannels(sh, c, n', g')
      {
        var c' := AddChannels(sh, c, n, g);
        forall n': nat, g': nat | (n' < n && g' < sh.gpus) || (n' == n && g' < g)
          ensures RankChannels(sh, c', n', g')
        {
          RankChannelsGrow(sh, c, c', n', g');
        }
        c := c';
      }
    }
  }

  /** `ops` is the beginning of the program of rank (n, g). */
  ghost predicate Emitted(sh: Shape, n: nat, g: nat, ops: seq<Op>)
    requires sh.nodes >= 1 && sh.gpus >= 1
  {
    && |ops| <= ProgramLength(sh)
    && forall i :: 0 <= i < |ops| ==> ops[i] == OpAt(sh, n, g, i)
  }

  /** The list comprehension over all indices but one. */
  method CollectOthers(base: nat, width: nat, self: nat, count: nat, size: nat)
    returns (raised: Option<Error>, starts: seq<nat>)
    requires self < count && base + count * width <= size
    ensures raised == None && starts == OtherBlocks(base, width, self, count)
  {
    raised, starts := None, [];
    ghost var all := OtherBlocks(base, width, self, count);
    for x: nat := 0 to count
      invariant raised == None
      invariant |starts| == if x <= self then x else x - 1
      invariant starts == all[..|starts|]
    {
      if x != self {
        MulStep(x, count, width);
        assert all[|starts|] == base + x * width;
        raised := First(raised, SliceError(size, base + x * width, width));
        starts := starts + [base + x * width];
      }
    }
  }

  // ---- one emitted operation: its exceptions, and that none is raised ----

  function PutErrors(sh: Shape, c: Channels, n: nat, g: nat, peer: nat): Option<Error>
    requires peer != g
  {
    var me, dst := RankId(sh, n, g), RankId(sh, n, peer);
    First(GroupError(sh.gpus, g, peer),
    First(LookupError(c.memory, (dst, me), dst, me),
    First(SliceError(ScratchSize(sh), g * sh.nodes, sh.nodes),
          SliceError(TotalGpus(sh), peer * sh.nodes, sh.nodes))))
  }

  function PortPutErrors(sh: Shape, c: Channels, n: nat, g: nat, peer: nat): Option<Error>
    requires RankInRange(sh, peer, g)
  {
    var me, dst := RankId(sh, n, g), PeerNodeRank(sh, peer, g);
    First(LookupError(c.port, (me, dst), dst, me),
    First(SliceError(ScratchSize(sh), InterOffset(sh) + n * sh.nodes, sh.nodes),
          SliceError(ScratchSize(sh), g * sh.nodes, sh.nodes)))
  }

  function ReadPutErrors(sh: Shape, c: Channels, n: nat, g: nat, peer: nat): Option<Error>
    requires peer != g
  {
    var me, dst := RankId(sh, n, g), RankId(sh, n, peer);
    First(GroupError(sh.gpus, g, peer),
    First(LookupError(c.memory, (dst, me), dst, me),
    First(SliceError(ScratchSize(sh), BroadcastOffset(sh) + g * sh.nodes, sh.nodes),
          SliceError(ScratchSize(sh), InterOffset(sh) + n * sh.nodes, sh.nodes))))
  }

  function UnpackErrors(sh: Shape, g: nat, peer: nat): Option<Error>
    requires peer != g
  {
    First(GroupError(sh.gpus, g, peer),
    First(SliceError(TotalGpus(sh), peer * sh.nodes, sh.nodes),
          SliceError(ScratchSize(sh), BroadcastOffset(sh) + peer * sh.nodes, sh.nodes)))
  }

  lemma NoErrors(sh: Shape, c: Channels, n: nat, g: nat, peer: nat)
    requires RankInRange(sh, n, g) && peer < sh.gpus && peer != g
    requires Keyed(c) && HasMemory(sh, c, n, g, peer)
    ensures PutErrors(sh, c, n, g, peer) == None
    ensures ReadPutErrors(sh, c, n, g, peer) == None
    ensures UnpackErrors(sh, g, peer) == None
  {
    OffsetsFit(sh, n, g);
    OffsetsFit(sh, n, peer);
  }

  lemma NoPortErrors(sh: Shape, c: Channels, n: nat, g: nat, peer: nat)
    requires RankInRange(sh, n, g) && peer < sh.nodes
    requires Keyed(c) && HasPort(sh, c, n, g, peer)
    ensures PortPutErrors(sh, c, n, g, peer) == None
  {
    OffsetsFit(sh, n, g);
  }

  // ---- the emitting loops ----

  /** Sends to the other devices of the node. */
  method EmitPuts(sh: Shape, c: Channels, n: nat, g: nat) returns (raised: Option<Error>, ops: seq<Op>)
    requires RankInRange(sh, n, g) && Keyed(c) && RankChannels(sh, c, n, g)
    ensures raised == None && |ops| == sh.gpus - 1 && Emitted(sh, n, g, ops)
  {
    raised, ops := None, [];
    for peer: nat := 0 to sh.gpus
      invariant raised == None
      invariant |ops| == if peer <= g then peer else peer - 1
      invariant Emitted(sh, n, g, ops)
    {
      if peer != g {
        NoErrors(sh, c, n, g, peer);
        raised := First(raised, PutErrors(sh, c, n, g, peer));
        ops := ops + [PutOp(sh, n, g, peer)];
      }
    }
  }

  /** The sends inside the node, the reduction, the repacking and the barrier. */
  method EmitIntraNode(sh: Shape, c: Channels, n: nat, g: nat, groupSize: int)
    returns (raised: Option<Error>, ops: seq<Op>)
    requires RankInRange(sh, n, g) && Keyed(c) && RankChannels(sh, c, n, g)
    ensures raised == if sh.gpus < 2 then Some(EmptyReduce) else if groupSize < 0 then Some(EmptyBarrier) else None
    ensures |ops| == sh.gpus + 2 && Emitted(sh, n, g, ops)
  {
    var N, G := sh.nodes, sh.gpus;
    var err, others;
    raised, ops := EmitPuts(sh, c, n, g);
    OffsetsFit(sh, n, g);
    err, others := CollectOthers(0, N, g, G, ScratchSize(sh));
    raised := First(raised, err);
    raised := First(raised, SliceError(TotalGpus(sh), g * N, N));
    raised := First(raised, ReduceError(others));
    raised := First(raised, SliceError(ScratchSize(sh), g * N, N));
    err := EmitBarrier(sh.gpus, groupSize);
    raised := First(raised, err);
    ops := ops + [Reduce(g * N, others), Pack(g * N, g * N), Barrier];
  }

  /** Sends to the same device of the other nodes. */
  method EmitPortPuts(sh: Shape, c: Channels, n: nat, g: nat, before: seq<Op>)
    returns (raised: Option<Error>, ops: seq<Op>)
    requires RankInRange(sh, n, g) && Keyed(c) && RankChannels(sh, c, n, g)
    requires |before| == sh.gpus + 2 && Emitted(sh, n, g, before)
    ensures raised == None && |ops| == sh.gpus + sh.nodes + 1 && Emitted(sh, n, g, ops)
  {
    raised, ops := None, before;
    for peer: nat := 0 to sh.nodes
      invariant raised == None
      invariant |ops| == sh.gpus + 2 + if peer <= n then peer else peer - 1
      invariant Emitted(sh, n, g, ops)
    {
      if peer != n {
        NoPortErrors(sh, c, n, g, peer);
        raised := First(raised, PortPutErrors(sh, c, n, g, peer));
        ops := ops + [PortPutOp(sh, n, g, peer)];
      }
    }
  }

  method EmitInterNode(sh: Shape, c: Channels, n: nat, g: nat, before: seq<Op>)
    returns (raised: Option<Error>, ops: seq<Op>)
    requires RankInRange(sh, n, g) && Keyed(c) && RankChannels(sh, c, n, g)
    requires |before| == sh.gpus + 2 && Emitted(sh, n, g, before)
    ensures raised == if sh.nodes >= 2 then None else Some(EmptyReduce)
    ensures |ops| == sh.gpus + sh.nodes + 3 && Emitted(sh, n, g, ops)
  {
    var N := sh.nodes;
    var err, others;
    raised, ops := EmitPortPuts(sh, c, n, g, before);
    OffsetsFit(sh, n, g);
    err, others := CollectOthers(InterOffset(sh), N, n, N, ScratchSize(sh));
    raised := First(raised, err);
    raised := First(raised, SliceError(TotalGpus(sh), g * N, N));
    raised := First(raised, ReduceError(others));
    raised := First(raised, SliceError(ScratchSize(sh), InterOffset(sh) + n * N, N));
    ops := ops + [Reduce(g * N, others), Pack(InterOffset(sh) + n * N, g * N)];
  }

  method EmitBroadcast(sh: Shape, c: Channels, n: nat, g: nat, before: seq<Op>)
    returns (raised: Option<Error>, ops: seq<Op>)
    requires RankInRange(sh, n, g) && Keyed(c) && RankChannels(sh, c, n, g)
    requires |before| == sh.gpus + sh.nodes + 3 && Emitted(sh, n, g, before)
    ensures raised == None && |ops| == 2 * sh.gpus + sh.nodes + 2 && Emitted(sh, n, g, ops)
  {
    raised, ops := None, before;
    for peer: nat := 0 to sh.gpus
      invariant raised == None
      invariant |ops| == sh.gpus + sh.nodes + 3 + if peer <= g then peer else peer - 1
      invariant Emitted(sh, n, g, ops)
    {
      if peer != g {
        NoErrors(sh, c, n, g, peer);
        raised := First(raised, ReadPutErrors(sh, c, n, g, peer));
        ops := ops + [ReadPutOp(sh, n, g, peer)];
      }
    }
  }

  method EmitUnpack(sh: Shape, c: Channels, n: nat, g: nat, before: seq<Op>)
    returns (raised: Option<Error>, ops: seq<Op>)
    requires RankInRange(sh, n, g) && Keyed(c) && RankChannels(sh, c, n, g)
    requires |before| == 2 * sh.gpus + sh.nodes + 2 && Emitted(sh, n, g, before)
    ensures raised == None && ops == ProgramOf(sh, n, g)
  {
    raised, ops := None, before;
    for peer: nat := 0 to sh.gpus
      invariant raised == None
      invariant |ops| == 2 * sh.gpus + sh.nodes + 2 + if peer <= g then peer else peer - 1
      invariant Emitted(sh, n, g, ops)
    {
      if peer != g {
        NoErrors(sh, c, n, g, peer);
        raised := First(raised, UnpackErrors(sh, g, peer));
        ops := ops + [UnpackOp(sh, peer)];
      }
    }
  }

  method EmitRank(sh: Shape, c: Channels, n: nat, g: nat, groupSize: int)
    returns (raised: Option<Error>, ops: seq<Op>)
    requires RankInRange(sh, n, g) && Keyed(c) && RankChannels(sh, c, n, g)
    ensures raised == BuildError(sh, groupSize)
    ensures ops == ProgramOf(sh, n, g)
  {
    var err;
    raised, ops := EmitIntraNode(sh, c, n, g, groupSize);
    err, ops := EmitInterNode(sh, c, n, g, ops);
    raised := First(raised, err);
    err, ops := EmitBroadcast(sh, c, n, g, ops);
    raised := First(raised, err);
    err, ops := EmitUnpack(sh, c, n, g, ops);
    raised := First(raised, err);
  }

  /** The program of rank (n, g) is at its place. */
  ghost predicate EmittedAt(sh: Shape, groupSize: int, programs: seq<seq<Op>>, n: nat, g: nat)
    requires sh.nodes >= 1 && sh.gpus >= 1
  {
    RankId(sh, n, g) < |programs| && programs[RankId(sh, n, g)] == Scheduled(ProgramOf(sh, n, g), groupSize)
  }

  /** The whole program. Building fails exactly when a reduction would have nothing to add or the
      barrier no thread block to join. */
  method BuildProgram(sh: Shape, groupSize: int) returns (r: Result<seq<seq<Op>>>)
    requires sh.nodes >= 1 && sh.gpus >= 1
    ensures r.Success? <==> Valid(sh) && groupSize >= 0
    ensures r.Failure? ==> BuildError(sh, groupSize) == Some(r.error)
    ensures r.Success? ==> |r.value| == TotalGpus(sh)
    ensures r.Success? ==> forall n: nat, g: nat :: RankInRange(sh, n, g) ==> EmittedAt(sh, groupSize, r.value, n, g)
  {
    var c := BuildChannels(sh);
    var raised: Option<Error>, programs: seq<seq<Op>> := None, [];
    for n: nat := 0 to sh.nodes
      invariant |programs| == n * sh.gpus
      invariant raised == if n == 0 then None else BuildError(sh, groupSize)
      invariant forall n': nat, g': nat :: n' < n && g' < sh.gpus ==> EmittedAt(sh, groupSize, programs, n', g')
    {
      var row := [];
      for g: nat := 0 to sh.gpus
        invariant |row| == g
        invariant raised == if n == 0 && g == 0 then None else BuildError(sh, groupSize)
        invariant forall g': nat :: g' < g ==> row[g'] == Scheduled(ProgramOf(sh, n, g'), groupSize)
      {
        var err, ops := EmitRank(sh, c, n, g, groupSize);
        raised := First(raised, err);
        ops := Schedule(ops, groupSize);
        row := row + [ops];
      }
      AppendRow(sh, groupSize, programs, row, n);
      programs := programs + row;
    }
    r := Finish(raised, programs);
  }

  lemma AppendRow(sh: Shape, groupSize: int, programs: seq<seq<Op>>, row: seq<seq<Op>>, n: nat)
    requires sh.nodes >= 1 && sh.gpus >= 1
    requires |programs| == n * sh.gpus && |row| == sh.gpus
    requires forall n': nat, g: nat :: n' < n && g < sh.gpus ==> EmittedAt(sh, groupSize, programs, n', g)
    requires forall g: nat :: g < sh.gpus ==> row[g] == Scheduled(ProgramOf(sh, n, g), groupSize)
    ensures |programs + row| == (n + 1) * sh.gpus
    ensures forall n': nat, g: nat :: n' < n + 1 && g < sh.gpus ==> EmittedAt(sh, groupSize, programs + row, n', g)
  {
    forall n': nat, g: nat | n' < n + 1 && g < sh.gpus
      ensures EmittedAt(sh, groupSize, programs + row, n', g)
    {
      if n' == n {
        assert RankId(sh, n, g) == |programs| + g;
      } else {
        assert EmittedAt(sh, groupSize, programs, n', g);
      }
    }
  }
}
