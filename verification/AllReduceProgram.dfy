/** The operations that the hierarchical AllReduce emits for each rank, and where each operation
    reads and writes. */
module AllReduceProgram {
  import opened Arith
  import opened Wrappers

  /** `nodes` machines of `gpus` devices each. A rank owns `nodes` packets per device. */
  datatype Shape = Shape(nodes: nat, gpus: nat)

  /** One rank-level operation. Every offset names the first of `nodes` consecutive
      slots; `src`, `chunk` index the input buffer, the other offsets a scratch buffer. */
  datatype Op =
    | Put(dst: nat, dstSlot: nat, src: nat)
    | Reduce(chunk: nat, others: seq<nat>)
    | Pack(slot: nat, chunk: nat)
    | Barrier
    | PortPut(dst: nat, dstSlot: nat, srcSlot: nat)
    | ReadPut(dst: nat, dstSlot: nat, srcSlot: nat)
    | Unpack(chunk: nat, slot: nat)

  /** An operation: the rank that runs it and its position in that rank's program. */
  datatype Site = Site(node: nat, gpu: nat, index: nat)

  /** A block of `nodes` scratch slots on one rank. */
  datatype Block = Block(node: nat, gpu: nat, block: nat)

  ghost predicate Valid(sh: Shape) { sh.nodes >= 2 && sh.gpus >= 2 }

  function TotalGpus(sh: Shape): nat { sh.nodes * sh.gpus }

  function RankId(sh: Shape, node: nat, gpu: nat): nat { gpu + sh.gpus * node }

  function ScratchSize(sh: Shape): nat { 2 * TotalGpus(sh) + sh.nodes * sh.nodes }

  /** The number of `nodes`-slot blocks in a scratch buffer. */
  function ScratchBlocks(sh: Shape): nat { 2 * sh.gpus + sh.nodes }

  /** Slot `k` of block `b`. */
  function Addr(sh: Shape, b: nat, k: nat): nat { b * sh.nodes + k }

  /** The `j`-th index other than `self`, and its inverse. */
  function Skip(self: nat, j: nat): nat { if j < self then j else j + 1 }
  function Unskip(self: nat, other: nat): nat
    requires other != self
  {
    if other < self then other else other - 1
  }

  function ProgramLength(sh: Shape): nat { 3 * sh.gpus + sh.nodes + 1 }

  function InterOffset(sh: Shape): nat { TotalGpus(sh) }
  function BroadcastOffset(sh: Shape): nat { TotalGpus(sh) + sh.nodes * sh.nodes }

  /** The starts of the blocks that the two reductions read. */
  function OtherBlocks(base: nat, width: nat, self: nat, count: nat): (r: seq<nat>)
    requires count >= 1
    ensures |r| == count - 1
  {
    seq(count - 1, j requires 0 <= j => base + Skip(self, j) * width)
  }

  /** Device `gpu` sends its copy of `peer`'s chunks to `peer` on the same node. */
  function PutOp(sh: Shape, node: nat, gpu: nat, peer: nat): Op {
    Put(RankId(sh, node, peer), gpu * sh.nodes, peer * sh.nodes)
  }

  /** Device `gpu` sends its node's sum to the same device of node `peer`. */
  function PortPutOp(sh: Shape, node: nat, gpu: nat, peer: nat): Op {
    PortPut(RankId(sh, peer, gpu), InterOffset(sh) + node * sh.nodes, gpu * sh.nodes)
  }

  /** Device `gpu` sends the final value of its chunks to `peer` on the same node. */
  function ReadPutOp(sh: Shape, node: nat, gpu: nat, peer: nat): Op {
    ReadPut(RankId(sh, node, peer), BroadcastOffset(sh) + gpu * sh.nodes, InterOffset(sh) + node * sh.nodes)
  }

  function UnpackOp(sh: Shape, peer: nat): Op {
    Unpack(peer * sh.nodes, BroadcastOffset(sh) + peer * sh.nodes)
  }

  /** Operation `i` of the program of device `gpu` on machine `node`. */
  function OpAt(sh: Shape, node: nat, gpu: nat, i: nat): Op
    requires sh.nodes >= 1 && sh.gpus >= 1
  {
    var N, G := sh.nodes, sh.gpus;
    if i < G - 1 then PutOp(sh, node, gpu, Skip(gpu, i))
    else if i == G - 1 then Reduce(gpu * N, OtherBlocks(0, N, gpu, G))
    else if i == G then Pack(gpu * N, gpu * N)
    else if i == G + 1 then Barrier
    else if i < G + N + 1 then PortPutOp(sh, node, gpu, Skip(node, i - G - 2))
    else if i == G + N + 1 then Reduce(gpu * N, OtherBlocks(InterOffset(sh), N, node, N))
    else if i == G + N + 2 then Pack(InterOffset(sh) + node * N, gpu * N)
    else if i < 2 * G + N + 2 then ReadPutOp(sh, node, gpu, Skip(gpu, i - G - N - 3))
    else UnpackOp(sh, Skip(gpu, i - 2 * G - N - 2))
  }

  function ProgramOf(sh: Shape, node: nat, gpu: nat): (p: seq<Op>)
    requires sh.nodes >= 1 && sh.gpus >= 1
    ensures |p| == ProgramLength(sh)
  {
    seq(ProgramLength(sh), i requires 0 <= i => OpAt(sh, node, gpu, i))
  }

  // ---- where operations write ----

  /** The scratch slots an operation writes: the rank and the first slot. */
  function WriteOf(rank: nat, op: Op): Option<(nat, nat)> {
    match op
    case Put(dst, dstSlot, _) => Some((dst, dstSlot))
    case Pack(slot, _) => Some((rank, slot))
    case PortPut(dst, dstSlot, _) => Some((dst, dstSlot))
    case ReadPut(dst, dstSlot, _) => Some((dst, dstSlot))
    case _ => None
  }

  ghost predicate RankInRange(sh: Shape, node: nat, gpu: nat) { node < sh.nodes && gpu < sh.gpus }

  ghost predicate BlockInRange(sh: Shape, c: Block) {
    RankInRange(sh, c.node, c.gpu) && c.block < ScratchBlocks(sh)
  }

  ghost predicate SiteInRange(sh: Shape, w: Site) {
    RankInRange(sh, w.node, w.gpu) && w.index < ProgramLength(sh)
  }

  /** The block a rank would broadcast to itself is the only one never written. */
  ghost predicate HasWriter(sh: Shape, c: Block) { c.block != sh.gpus + sh.nodes + c.gpu }

  /** The operation that writes a block. */
  ghost function Writer(sh: Shape, c: Block): Site
    requires HasWriter(sh, c)
  {
    var N, G := sh.nodes, sh.gpus;
    var Block(n, g, b) := c;
    if b < G then
      if b == g then Site(n, g, G) else Site(n, b, Unskip(b, g))
    else if b < G + N then
      if b - G == n then Site(n, g, G + N + 2) else Site(b - G, g, G + 2 + Unskip(b - G, n))
    else
      Site(n, b - G - N, G + N + 3 + Unskip(b - G - N, g))
  }

  /** The block an operation writes. */
  ghost function Target(sh: Shape, w: Site): Option<Block>
  {
    var N, G := sh.nodes, sh.gpus;
    var Site(n, g, i) := w;
    if i < G - 1 then Some(Block(n, Skip(g, i), g))
    else if i == G then Some(Block(n, g, g))
    else if G + 2 <= i < G + N + 1 then Some(Block(Skip(n, i - G - 2), g, G + n))
    else if i == G + N + 2 then Some(Block(n, g, G + n))
    else if G + N + 3 <= i < 2 * G + N + 2 then Some(Block(n, Skip(g, i - G - N - 3), G + N + g))
    else None
  }

  lemma WriterTarget(sh: Shape, c: Block)
    requires Valid(sh) && BlockInRange(sh, c) && HasWriter(sh, c)
    ensures SiteInRange(sh, Writer(sh, c))
    ensures Target(sh, Writer(sh, c)) == Some(c)
  {
  }

  lemma TargetWriter(sh: Shape, w: Site)
    requires Valid(sh) && SiteInRange(sh, w) && Target(sh, w).Some?
    ensures BlockInRange(sh, Target(sh, w).value) && HasWriter(sh, Target(sh, w).value)
    ensures Writer(sh, Target(sh, w).value) == w
  {
  }

  /** An operation's destination slots are those of its target block. */
  lemma TargetIsWriteOf(sh: Shape, w: Site)
    requires Valid(sh) && SiteInRange(sh, w)
    ensures WriteOf(RankId(sh, w.node, w.gpu), OpAt(sh, w.node, w.gpu, w.index)) ==
            match Target(sh, w)
            case None => None
            case Some(c) => Some((RankId(sh, c.node, c.gpu), Addr(sh, c.block, 0)))
  {
    var N, G := sh.nodes, sh.gpus;
    assert (G + w.node) * N == G * N + w.node * N;
    assert (G + N + w.gpu) * N == G * N + N * N + w.gpu * N;
  }

  // ---- index arithmetic ----

  lemma RankIdUnique(sh: Shape, n: nat, g: nat, n': nat, g': nat)
    requires g < sh.gpus && g' < sh.gpus && RankId(sh, n, g) == RankId(sh, n', g')
    ensures n == n' && g == g'
  {
    MulAddUnique(sh.gpus, n, g, n', g');
  }

  lemma RankIdBound(sh: Shape, n: nat, g: nat)
    requires RankInRange(sh, n, g)
    ensures RankId(sh, n, g) < TotalGpus(sh)
  {
    MulAddBound(sh.gpus, n, g, sh.nodes);
  }

  lemma AddrBound(sh: Shape, b: nat, k: nat, blocks: nat)
    requires k < sh.nodes && b < blocks
    ensures Addr(sh, b, k) < blocks * sh.nodes
  {
    MulAddBound(sh.nodes, b, k, blocks);
  }

  lemma ScratchSizeInBlocks(sh: Shape)
    ensures ScratchSize(sh) == ScratchBlocks(sh) * sh.nodes
  {
  }

  // ---- the layout theorem ----

  /** No two operations of any ranks write the same scratch slot of the same rank. */
  lemma SingleWriter(sh: Shape, w: Site, w': Site, k: nat, k': nat)
    requires Valid(sh) && SiteInRange(sh, w) && SiteInRange(sh, w')
    requires k < sh.nodes && k' < sh.nodes
    requires var a := WriteOf(RankId(sh, w.node, w.gpu), OpAt(sh, w.node, w.gpu, w.index));
             var b := WriteOf(RankId(sh, w'.node, w'.gpu), OpAt(sh, w'.node, w'.gpu, w'.index));
             a.Some? && b.Some? && a.value.0 == b.value.0 && a.value.1 + k == b.value.1 + k'
    ensures w == w' && k == k'
  {
    TargetIsWriteOf(sh, w);
    TargetIsWriteOf(sh, w');
    TargetWriter(sh, w);
    TargetWriter(sh, w');
    var c, c' := Target(sh, w).value, Target(sh, w').value;
    RankIdUnique(sh, c.node, c.gpu, c'.node, c'.gpu);
    MulAddUnique(sh.nodes, c.block, k, c'.block, k');
  }

  /** The scratch offsets an operation touches, on its own rank or on its destination. */
  function SlotsOf(op: Op): seq<nat> {
    match op
    case Put(_, dstSlot, _) => [dstSlot]
    case Reduce(_, others) => others
    case Pack(slot, _) => [slot]
    case Barrier => []
    case PortPut(_, dstSlot, srcSlot) => [dstSlot, srcSlot]
    case ReadPut(_, dstSlot, srcSlot) => [dstSlot, srcSlot]
    case Unpack(_, slot) => [slot]
  }

  function ChunksOf(op: Op): seq<nat> {
    match op
    case Put(_, _, src) => [src]
    case Reduce(chunk, _) => [chunk]
    case Pack(_, chunk) => [chunk]
    case Unpack(chunk, _) => [chunk]
    case _ => []
  }

  /** An operation stays inside the buffers and names an existing rank. */
  ghost predicate InBounds(sh: Shape, op: Op) {
    && (op.Put? || op.PortPut? || op.ReadPut? ==> op.dst < TotalGpus(sh))
    && (forall s :: s in SlotsOf(op) ==> s + sh.nodes <= ScratchSize(sh))
    && (forall c :: c in ChunksOf(op) ==> c + sh.nodes <= TotalGpus(sh))
  }

  lemma OffsetsFit(sh: Shape, node: nat, gpu: nat)
    requires RankInRange(sh, node, gpu)
    ensures gpu * sh.nodes + sh.nodes <= TotalGpus(sh)
    ensures InterOffset(sh) + node * sh.nodes + sh.nodes <= BroadcastOffset(sh)
    ensures BroadcastOffset(sh) + gpu * sh.nodes + sh.nodes <= ScratchSize(sh)
  {
    MulStep(gpu, sh.gpus, sh.nodes);
    MulStep(node, sh.nodes, sh.nodes);
  }

  lemma PutInBounds(sh: Shape, node: nat, gpu: nat, i: nat)
    requires RankInRange(sh, node, gpu) && i < sh.gpus - 1
    ensures InBounds(sh, OpAt(sh, node, gpu, i))
  {
    OffsetsFit(sh, node, gpu);
    OffsetsFit(sh, node, Skip(gpu, i));
    RankIdBound(sh, node, Skip(gpu, i));
  }

  lemma ReduceInBounds(sh: Shape, node: nat, gpu: nat, i: nat)
    requires RankInRange(sh, node, gpu)
    requires i == sh.gpus - 1 || i == sh.gpus + sh.nodes + 1
    ensures InBounds(sh, OpAt(sh, node, gpu, i))
  {
    OffsetsFit(sh, node, gpu);
    if i == sh.gpus - 1 {
      OtherBlocksFit(0, sh.nodes, gpu, sh.gpus, TotalGpus(sh));
    } else {
      OtherBlocksFit(InterOffset(sh), sh.nodes, node, sh.nodes, BroadcastOffset(sh));
    }
  }

  lemma BroadcastInBounds(sh: Shape, node: nat, gpu: nat, i: nat)
    requires RankInRange(sh, node, gpu) && sh.gpus + sh.nodes + 3 <= i < ProgramLength(sh)
    ensures InBounds(sh, OpAt(sh, node, gpu, i))
  {
    var first := sh.gpus + sh.nodes + 3;
    OffsetsFit(sh, node, gpu);
    if i < first + sh.gpus - 1 {
      RankIdBound(sh, node, Skip(gpu, i - first));
    } else {
      OffsetsFit(sh, node, Skip(gpu, i - first - sh.gpus + 1));
    }
  }

  /** Every access of every operation stays inside the buffers. */
  lemma OpInBounds(sh: Shape, node: nat, gpu: nat, i: nat)
    requires Valid(sh) && RankInRange(sh, node, gpu) && i < ProgramLength(sh)
    ensures InBounds(sh, OpAt(sh, node, gpu, i))
  {
    var N, G := sh.nodes, sh.gpus;
    if i < G - 1 {
      PutInBounds(sh, node, gpu, i);
    } else if i == G - 1 || i == G + N + 1 {
      ReduceInBounds(sh, node, gpu, i);
    } else if i < G + N + 3 {
      OffsetsFit(sh, node, gpu);
      if G + 2 <= i < G + N + 1 {
        RankIdBound(sh, Skip(node, i - G - 2), gpu);
      }
    } else {
      BroadcastInBounds(sh, node, gpu, i);
    }
  }

  lemma OtherBlocksFit(base: nat, width: nat, self: nat, count: nat, limit: nat)
    requires 1 <= count && self < count && base + count * width <= limit
    ensures forall s :: s in OtherBlocks(base, width, self, count) ==> s + width <= limit
  {
    var r := OtherBlocks(base, width, self, count);
    forall j | 0 <= j < |r|
      ensures r[j] + width <= limit
    {
      MulStep(Skip(self, j), count, width);
    }
  }
}
