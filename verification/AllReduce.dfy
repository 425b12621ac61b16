/** The hierarchical AllReduce as a distributed program. Every rank runs its operations in
    order; inside one operation the slots are handled one at a time, in any order; a packet
    read waits until its slot has been written. Ranks interleave arbitrarily. */
module AllReduce {
  import opened Arith
  import opened Reduction
  import opened AllReduceProgram
  import opened Wrappers

  /** What is being reduced: `init[r][c]` is chunk `c` of rank `r` before the run. */
  datatype Job<!V> = Job(sh: Shape, op: (V, V) -> V, init: seq<seq<V>>)

  /** `pc[r]` is the operation rank `r` is at and `done[r]` the slots of it already handled.
      A scratch slot is `None` until a packet arrives. */
  datatype State<V> = State(pc: seq<nat>, done: seq<set<nat>>,
                            input: seq<seq<V>>, scratch: seq<seq<Option<V>>>)

  ghost predicate ValidShape<V>(job: Job<V>) {
    && Valid(job.sh)
    && |job.init| == TotalGpus(job.sh)
    && forall r :: 0 <= r < |job.init| ==> |job.init[r]| == TotalGpus(job.sh)
  }

  ghost predicate ValidJob<V(!new)>(job: Job<V>) {
    ValidShape(job) && AssociativeCommutative(job.op)
  }

  ghost predicate WellShaped<V>(sh: Shape, s: State<V>) {
    && |s.pc| == |s.done| == |s.input| == |s.scratch| == TotalGpus(sh)
    && (forall r :: 0 <= r < |s.input| ==> |s.input[r]| == TotalGpus(sh))
    && (forall r :: 0 <= r < |s.scratch| ==> |s.scratch[r]| == ScratchSize(sh))
  }

  function Initial<V>(job: Job<V>): State<V> {
    var T := TotalGpus(job.sh);
    State(seq(T, _ => 0), seq(T, _ => {}), job.init,
          seq(T, _ => seq(ScratchSize(job.sh), _ => None)))
  }

  // ---- one slot of one operation ----

  ghost predicate Ready<V>(sh: Shape, s: State<V>, r: nat, op: Op, k: nat)
    requires WellShaped(sh, s) && r < TotalGpus(sh) && InBounds(sh, op) && k < sh.nodes
  {
    match op
    case Reduce(_, others) => forall j :: 0 <= j < |others| ==> Arrived(s, r, others[j] + k)
    case ReadPut(_, _, srcSlot) => Arrived(s, r, srcSlot + k)
    case Unpack(_, slot) => Arrived(s, r, slot + k)
    case _ => true
  }

  ghost predicate Arrived<V>(s: State<V>, r: nat, slot: nat) {
    r < |s.scratch| && slot < |s.scratch[r]| && s.scratch[r][slot].Some?
  }

  ghost function Read<V>(s: State<V>, r: nat, slot: nat): V
    requires Arrived(s, r, slot)
  {
    s.scratch[r][slot].value
  }

  ghost function ReadAll<V>(sh: Shape, s: State<V>, r: nat, others: seq<nat>, k: nat): (vs: seq<V>)
    requires forall j :: 0 <= j < |others| ==> Arrived(s, r, others[j] + k)
    ensures |vs| == |others|
  {
    seq(|others|, j requires 0 <= j < |others| => Read(s, r, others[j] + k))
  }

  ghost function SetSlot<V>(s: State<V>, r: nat, slot: nat, v: Option<V>): State<V>
    requires r < |s.scratch| && slot < |s.scratch[r]|
  {
    s.(scratch := s.scratch[r := s.scratch[r][slot := v]])
  }

  ghost function SetChunk<V>(s: State<V>, r: nat, chunk: nat, v: V): State<V>
    requires r < |s.input| && chunk < |s.input[r]|
  {
    s.(input := s.input[r := s.input[r][chunk := v]])
  }

  /** The effect of slot `k` of `op` on rank `r`. A port-channel put copies its source slot
      as it is, without waiting for a packet in it. */
  ghost function Effect<V>(job: Job<V>, s: State<V>, r: nat, op: Op, k: nat): State<V>
    requires WellShaped(job.sh, s) && r < TotalGpus(job.sh) && InBounds(job.sh, op) && k < job.sh.nodes
    requires Ready(job.sh, s, r, op, k)
  {
    match op
    case Put(dst, dstSlot, src) =>
      assert dstSlot in SlotsOf(op) && src in ChunksOf(op);
      SetSlot(s, dst, dstSlot + k, Some(s.input[r][src + k]))
    case Reduce(chunk, others) =>
      assert chunk in ChunksOf(op);
      SetChunk(s, r, chunk + k,
               FoldLeft(job.op, s.input[r][chunk + k], ReadAll(job.sh, s, r, others, k)))
    case Pack(slot, chunk) =>
      assert slot in SlotsOf(op) && chunk in ChunksOf(op);
      SetSlot(s, r, slot + k, Some(s.input[r][chunk + k]))
    case Barrier => s
    case PortPut(dst, dstSlot, srcSlot) =>
      assert dstSlot in SlotsOf(op) && srcSlot in SlotsOf(op);
      SetSlot(s, dst, dstSlot + k, s.scratch[r][srcSlot + k])
    case ReadPut(dst, dstSlot, srcSlot) =>
      assert dstSlot in SlotsOf(op);
      SetSlot(s, dst, dstSlot + k, Some(Read(s, r, srcSlot + k)))
    case Unpack(chunk, slot) =>
      assert chunk in ChunksOf(op);
      SetChunk(s, r, chunk + k, Read(s, r, slot + k))
  }

  // ---- steps ----

  ghost predicate AtOp<V>(job: Job<V>, s: State<V>, n: nat, g: nat) {
    && WellShaped(job.sh, s)
    && RankInRange(job.sh, n, g)
    && RankId(job.sh, n, g) < TotalGpus(job.sh)
    && s.pc[RankId(job.sh, n, g)] < ProgramLength(job.sh)
  }

  ghost function CurrentOp<V>(job: Job<V>, s: State<V>, n: nat, g: nat): Op
    requires Valid(job.sh) && AtOp(job, s, n, g)
  {
    OpAt(job.sh, n, g, s.pc[RankId(job.sh, n, g)])
  }

  /** Rank (n, g) can handle slot `k` of its current operation. */
  ghost predicate SlotEnabled<V>(job: Job<V>, s: State<V>, n: nat, g: nat, k: nat) {
    && Valid(job.sh) && AtOp(job, s, n, g)
    && k < job.sh.nodes
    && k !in s.done[RankId(job.sh, n, g)]
    && InBounds(job.sh, CurrentOp(job, s, n, g))
    && Ready(job.sh, s, RankId(job.sh, n, g), CurrentOp(job, s, n, g), k)
  }

  ghost function SlotStep<V>(job: Job<V>, s: State<V>, n: nat, g: nat, k: nat): State<V>
    requires SlotEnabled(job, s, n, g, k)
  {
    var r := RankId(job.sh, n, g);
    Effect(job, s, r, CurrentOp(job, s, n, g), k).(done := s.done[r := s.done[r] + {k}])
  }

  /** Rank (n, g) has handled all slots of its current operation. */
  ghost predicate NextEnabled<V>(job: Job<V>, s: State<V>, n: nat, g: nat) {
    && AtOp(job, s, n, g)
    && forall k :: 0 <= k < job.sh.nodes ==> k in s.done[RankId(job.sh, n, g)]
  }

  ghost function NextStep<V>(job: Job<V>, s: State<V>, n: nat, g: nat): State<V>
    requires NextEnabled(job, s, n, g)
  {
    var r := RankId(job.sh, n, g);
    s.(pc := s.pc[r := s.pc[r] + 1], done := s.done[r := {}])
  }

  ghost predicate Step<V>(job: Job<V>, s: State<V>, s': State<V>) {
    || (exists n, g, k :: SlotEnabled(job, s, n, g, k) && s' == SlotStep(job, s, n, g, k))
    || (exists n, g :: NextEnabled(job, s, n, g) && s' == NextStep(job, s, n, g))
  }

  ghost predicate Run<V>(job: Job<V>, run: seq<State<V>>) {
    && run != []
    && run[0] == Initial(job)
    && forall i :: 0 <= i < |run| - 1 ==> Step(job, run[i], run[i + 1])
  }

  ghost predicate Finished<V>(job: Job<V>, s: State<V>) {
    forall r :: 0 <= r < |s.pc| ==> s.pc[r] == ProgramLength(job.sh)
  }

  // ---- what every slot and every chunk must hold ----

  ghost function Column<V>(job: Job<V>, n: nat, c: nat): (r: seq<V>)
    requires ValidShape(job) && n < job.sh.nodes && c < TotalGpus(job.sh)
    ensures |r| == job.sh.gpus
  {
    seq(job.sh.gpus, p requires 0 <= p < job.sh.gpus =>
      RankIdBound(job.sh, n, p); job.init[RankId(job.sh, n, p)][c])
  }

  /** Chunk `c` reduced over the devices of machine `n`. */
  ghost function NodeSum<V>(job: Job<V>, n: nat, c: nat): V
    requires ValidShape(job) && n < job.sh.nodes && c < TotalGpus(job.sh)
  {
    Sum(job.op, Column(job, n, c))
  }

  /** Chunk `c` reduced over all ranks, in rank order. */
  ghost function Total<V>(job: Job<V>, c: nat): V
    requires ValidShape(job) && c < TotalGpus(job.sh)
  {
    assert TotalGpus(job.sh) > 0 by { MulStep(0, job.sh.nodes, job.sh.gpus); }
    Sum(job.op, seq(TotalGpus(job.sh), r requires 0 <= r < TotalGpus(job.sh) => job.init[r][c]))
  }

  /** The value that the packet in slot `k` of block `c` carries. */
  ghost function Expected<V>(job: Job<V>, c: Block, k: nat): V
    requires ValidShape(job) && BlockInRange(job.sh, c) && HasWriter(job.sh, c) && k < job.sh.nodes
  {
    var sh := job.sh;
    var b := c.block;
    AddrBound(sh, c.gpu, k, sh.gpus);
    var mine := Addr(sh, c.gpu, k);
    if b < sh.gpus then
      if b == c.gpu then NodeSum(job, c.node, mine)
      else RankIdBound(sh, c.node, b); job.init[RankId(sh, c.node, b)][mine]
    else if b < sh.gpus + sh.nodes then
      if b - sh.gpus == c.node then Total(job, mine) else NodeSum(job, b - sh.gpus, mine)
    else
      AddrBound(sh, b - sh.gpus - sh.nodes, k, sh.gpus);
      Total(job, Addr(sh, b - sh.gpus - sh.nodes, k))
  }

  /** Slot `k` of operation `w` has been handled. */
  ghost predicate Passed<V>(sh: Shape, s: State<V>, w: Site, k: nat) {
    var r := RankId(sh, w.node, w.gpu);
    r < |s.pc| && r < |s.done| && (s.pc[r] > w.index || (s.pc[r] == w.index && k in s.done[r]))
  }

  ghost predicate SlotOk<V>(job: Job<V>, s: State<V>, c: Block, k: nat)
    requires ValidShape(job) && BlockInRange(job.sh, c) && k < job.sh.nodes
  {
    var r, a := RankId(job.sh, c.node, c.gpu), Addr(job.sh, c.block, k);
    && r < |s.scratch| && a < |s.scratch[r]|
    && s.scratch[r][a] == if HasWriter(job.sh, c) && Passed(job.sh, s, Writer(job.sh, c), k)
                          then Some(Expected(job, c, k)) else None
  }

  /** Chunk (p, k) of rank (n, g): untouched, reduced over the machine, or final. */
  ghost function ExpectedChunk<V>(job: Job<V>, s: State<V>, n: nat, g: nat, p: nat, k: nat): V
    requires ValidShape(job) && RankInRange(job.sh, n, g) && p < job.sh.gpus && k < job.sh.nodes
  {
    var N, G := job.sh.nodes, job.sh.gpus;
    AddrBound(job.sh, p, k, G);
    RankIdBound(job.sh, n, g);
    var c := Addr(job.sh, p, k);
    var first := job.init[RankId(job.sh, n, g)][c];
    if p == g then
      if Passed(job.sh, s, Site(n, g, G + N + 1), k) then Total(job, c)
      else if Passed(job.sh, s, Site(n, g, G - 1), k) then NodeSum(job, n, c)
      else first
    else
      if Passed(job.sh, s, Site(n, g, 2 * G + N + 2 + Unskip(g, p)), k) then Total(job, c) else first
  }

  ghost predicate ChunkOk<V>(job: Job<V>, s: State<V>, n: nat, g: nat, p: nat, k: nat)
    requires ValidShape(job) && RankInRange(job.sh, n, g) && p < job.sh.gpus && k < job.sh.nodes
  {
    var r, a := RankId(job.sh, n, g), Addr(job.sh, p, k);
    && r < |s.input| && a < |s.input[r]|
    && s.input[r][a] == ExpectedChunk(job, s, n, g, p, k)
  }

  ghost predicate CountersOk<V>(job: Job<V>, s: State<V>) {
    && (forall r :: 0 <= r < |s.pc| ==> s.pc[r] <= ProgramLength(job.sh))
    && (forall r :: 0 <= r < |s.pc| && r < |s.done| && s.pc[r] == ProgramLength(job.sh) ==> s.done[r] == {})
    && (forall r :: 0 <= r < |s.done| ==> forall k :: k in s.done[r] ==> k < job.sh.nodes)
  }

  ghost predicate Inv<V>(job: Job<V>, s: State<V>)
    requires ValidShape(job)
  {
    && WellShaped(job.sh, s)
    && CountersOk(job, s)
    && (forall c: Block, k: nat :: BlockInRange(job.sh, c) && k < job.sh.nodes ==> SlotOk(job, s, c, k))
    && (forall n: nat, g: nat, p: nat, k: nat :: RankInRange(job.sh, n, g) && p < job.sh.gpus && k < job.sh.nodes ==>
          ChunkOk(job, s, n, g, p, k))
  }

  lemma InitialSlot<V>(job: Job<V>, c: Block, k: nat)
    requires ValidShape(job) && BlockInRange(job.sh, c) && k < job.sh.nodes
    ensures SlotOk(job, Initial(job), c, k)
  {
    RankIdBound(job.sh, c.node, c.gpu);
    AddrBound(job.sh, c.block, k, ScratchBlocks(job.sh));
    ScratchSizeInBlocks(job.sh);
  }

  lemma InitialChunk<V>(job: Job<V>, n: nat, g: nat, p: nat, k: nat)
    requires ValidShape(job) && RankInRange(job.sh, n, g) && p < job.sh.gpus && k < job.sh.nodes
    ensures ChunkOk(job, Initial(job), n, g, p, k)
  {
    RankIdBound(job.sh, n, g);
    AddrBound(job.sh, p, k, job.sh.gpus);
  }

  lemma InitialInv<V>(job: Job<V>)
    requires ValidShape(job)
    ensures Inv(job, Initial(job))
  {
    forall c: Block, k: nat | BlockInRange(job.sh, c) && k < job.sh.nodes
      ensures SlotOk(job, Initial(job), c, k)
    {
      InitialSlot(job, c, k);
    }
    forall n: nat, g: nat, p: nat, k: nat | RankInRange(job.sh, n, g) && p < job.sh.gpus && k < job.sh.nodes
      ensures ChunkOk(job, Initial(job), n, g, p, k)
    {
      InitialChunk(job, n, g, p, k);
    }
  }

  // ---- the sums that the reductions build ----

  /** The machine-level reduction order gives the machine's sum. */
  lemma NodeSumFromSelf<V(!new)>(job: Job<V>, n: nat, g: nat, c: nat)
    requires ValidJob(job) && RankInRange(job.sh, n, g) && c < TotalGpus(job.sh)
    ensures FoldLeft(job.op, Column(job, n, c)[g], Without(Column(job, n, c), g)) == NodeSum(job, n, c)
  {
    SumMoveToFront(job.op, Column(job, n, c), g);
  }

  ghost function NodeSums<V>(job: Job<V>, c: nat): (r: seq<V>)
    requires ValidShape(job) && c < TotalGpus(job.sh)
    ensures |r| == job.sh.nodes
  {
    seq(job.sh.nodes, n requires 0 <= n < job.sh.nodes => NodeSum(job, n, c))
  }

  ghost function Columns<V>(job: Job<V>, c: nat, n: nat): (r: seq<seq<V>>)
    requires ValidShape(job) && c < TotalGpus(job.sh) && n <= job.sh.nodes
    ensures |r| == n
  {
    seq(n, m requires 0 <= m < n => Column(job, m, c))
  }

  lemma ColumnAt<V>(job: Job<V>, c: nat, n: nat, lo: nat, r: nat)
    requires ValidShape(job) && c < TotalGpus(job.sh) && n < job.sh.nodes
    requires lo == n * job.sh.gpus && lo <= r < lo + job.sh.gpus
    ensures r < |job.init| && Column(job, n, c)[r - lo] == job.init[r][c]
  {
    assert RankId(job.sh, n, r - lo) == r;
    RankIdBound(job.sh, n, r - lo);
  }

  /** `v` is chunk `c` of rank `r`. */
  ghost predicate IsChunkOf<V>(job: Job<V>, c: nat, v: V, r: nat) {
    r < |job.init| && c < |job.init[r]| && v == job.init[r][c]
  }

  ghost predicate IsPrefixOfChunk<V>(job: Job<V>, c: nat, flat: seq<V>) {
    forall r :: 0 <= r < |flat| ==> IsChunkOf(job, c, flat[r], r)
  }

  lemma AppendColumn<V>(job: Job<V>, c: nat, n: nat, flat: seq<V>, r: nat)
    requires ValidShape(job) && c < TotalGpus(job.sh) && n < job.sh.nodes
    requires |flat| == n * job.sh.gpus && IsPrefixOfChunk(job, c, flat)
    requires r < |flat| + job.sh.gpus
    ensures IsChunkOf(job, c, (flat + Column(job, n, c))[r], r)
  {
    if |flat| <= r { ColumnAt(job, c, n, |flat|, r); }
  }

  lemma {:induction false} FlattenColumns<V>(job: Job<V>, c: nat, n: nat)
    requires ValidShape(job) && c < TotalGpus(job.sh) && n <= job.sh.nodes
    ensures |Flatten(Columns(job, c, n))| == n * job.sh.gpus
    ensures IsPrefixOfChunk(job, c, Flatten(Columns(job, c, n)))
  {
    if n > 0 {
      FlattenColumns(job, c, n - 1);
      assert Columns(job, c, n)[..n - 1] == Columns(job, c, n - 1);
      var flat := Flatten(Columns(job, c, n - 1));
      var flat' := Flatten(Columns(job, c, n));
      forall r | 0 <= r < |flat'|
        ensures IsChunkOf(job, c, flat'[r], r)
      {
        AppendColumn(job, c, n - 1, flat, r);
      }
      assert n * job.sh.gpus == (n - 1) * job.sh.gpus + job.sh.gpus;
    }
  }

  /** Reducing over machines what each machine reduced gives the sum over all ranks. */
  lemma TotalFromNodeSums<V(!new)>(job: Job<V>, n: nat, c: nat)
    requires ValidJob(job) && n < job.sh.nodes && c < TotalGpus(job.sh)
    ensures FoldLeft(job.op, NodeSums(job, c)[n], Without(NodeSums(job, c), n)) == Total(job, c)
  {
    SumMoveToFront(job.op, NodeSums(job, c), n);
    var cols := Columns(job, c, job.sh.nodes);
    SumOfSums(job.op, cols);
    assert Sums(job.op, cols) == NodeSums(job, c);
    FlattenColumns(job, c, job.sh.nodes);
    assert Flatten(cols) == seq(TotalGpus(job.sh), r requires 0 <= r < TotalGpus(job.sh) => job.init[r][c]);
  }

  // ---- what a step changes ----

  /** Handling slot `k` makes exactly that slot of that operation passed. */
  lemma PassedAfterSlot<V>(job: Job<V>, s: State<V>, n: nat, g: nat, k: nat, w: Site, k': nat)
    requires SlotEnabled(job, s, n, g, k) && SiteInRange(job.sh, w)
    ensures var i := s.pc[RankId(job.sh, n, g)];
            Passed(job.sh, SlotStep(job, s, n, g, k), w, k') <==>
            (Passed(job.sh, s, w, k') || (w == Site(n, g, i) && k' == k))
  {
    if RankId(job.sh, w.node, w.gpu) == RankId(job.sh, n, g) {
      RankIdUnique(job.sh, w.node, w.gpu, n, g);
    }
  }

  /** What slot `k` of the operation at `w` stores, when it stores into scratch. */
  ghost function Stored<V>(job: Job<V>, s: State<V>, n: nat, g: nat, k: nat): Option<V>
    requires SlotEnabled(job, s, n, g, k)
  {
    var r := RankId(job.sh, n, g);
    match CurrentOp(job, s, n, g)
    case Put(_, _, src) => assert src in ChunksOf(CurrentOp(job, s, n, g)); Some(s.input[r][src + k])
    case Pack(_, chunk) => assert chunk in ChunksOf(CurrentOp(job, s, n, g)); Some(s.input[r][chunk + k])
    case PortPut(_, _, srcSlot) => assert srcSlot in SlotsOf(CurrentOp(job, s, n, g)); s.scratch[r][srcSlot + k]
    case ReadPut(_, _, srcSlot) => Some(Read(s, r, srcSlot + k))
    case _ => None
  }

  lemma InterAddr(sh: Shape, m: nat, k: nat)
    ensures Addr(sh, sh.gpus + m, k) == InterOffset(sh) + m * sh.nodes + k
  {
    assert (sh.gpus + m) * sh.nodes == sh.gpus * sh.nodes + m * sh.nodes;
  }

  lemma BroadcastAddr(sh: Shape, p: nat, k: nat)
    ensures Addr(sh, sh.gpus + sh.nodes + p, k) == BroadcastOffset(sh) + p * sh.nodes + k
  {
    assert (sh.gpus + sh.nodes + p) * sh.nodes == sh.gpus * sh.nodes + sh.nodes * sh.nodes + p * sh.nodes;
  }

  ghost predicate StoresExpected<V>(job: Job<V>, s: State<V>, n: nat, g: nat, k: nat)
    requires ValidShape(job) && SlotEnabled(job, s, n, g, k)
  {
    var t := Target(job.sh, Site(n, g, s.pc[RankId(job.sh, n, g)]));
    t.Some? ==> && BlockInRange(job.sh, t.value) && HasWriter(job.sh, t.value)
                && Stored(job, s, n, g, k) == Some(Expected(job, t.value, k))
  }

  lemma PutStores<V>(job: Job<V>, s: State<V>, n: nat, g: nat, k: nat)
    requires ValidShape(job) && SlotEnabled(job, s, n, g, k)
    requires var i := s.pc[RankId(job.sh, n, g)];
             i < job.sh.gpus - 1 && ChunkOk(job, s, n, g, Skip(g, i), k)
    ensures StoresExpected(job, s, n, g, k)
  {
  }

  lemma PackStores<V>(job: Job<V>, s: State<V>, n: nat, g: nat, k: nat)
    requires ValidShape(job) && SlotEnabled(job, s, n, g, k)
    requires CurrentOp(job, s, n, g).Pack? && ChunkOk(job, s, n, g, g, k)
    ensures StoresExpected(job, s, n, g, k)
  {
  }

  lemma PortPutStores<V>(job: Job<V>, s: State<V>, n: nat, g: nat, k: nat)
    requires ValidShape(job) && SlotEnabled(job, s, n, g, k)
    requires CurrentOp(job, s, n, g).PortPut? && SlotOk(job, s, Block(n, g, g), k)
    ensures StoresExpected(job, s, n, g, k)
  {
  }

  lemma ReadPutStores<V>(job: Job<V>, s: State<V>, n: nat, g: nat, k: nat)
    requires ValidShape(job) && SlotEnabled(job, s, n, g, k)
    requires CurrentOp(job, s, n, g).ReadPut? && SlotOk(job, s, Block(n, g, job.sh.gpus + n), k)
    ensures StoresExpected(job, s, n, g, k)
  {
    InterAddr(job.sh, n, k);
  }

  /** Whatever an operation stores is what its target slot must hold. */
  lemma StoredIsExpected<V>(job: Job<V>, s: State<V>, n: nat, g: nat, k: nat)
    requires ValidShape(job) && Inv(job, s) && SlotEnabled(job, s, n, g, k)
    ensures StoresExpected(job, s, n, g, k)
  {
    var i := s.pc[RankId(job.sh, n, g)];
    match CurrentOp(job, s, n, g)
    case Put(_, _, _) =>
      assert ChunkOk(job, s, n, g, Skip(g, i), k);
      PutStores(job, s, n, g, k);
    case Pack(_, _) =>
      assert ChunkOk(job, s, n, g, g, k);
      PackStores(job, s, n, g, k);
    case PortPut(_, _, _) =>
      assert SlotOk(job, s, Block(n, g, g), k);
      PortPutStores(job, s, n, g, k);
    case ReadPut(_, _, _) =>
      assert SlotOk(job, s, Block(n, g, job.sh.gpus + n), k);
      ReadPutStores(job, s, n, g, k);
    case _ =>
  }

  /** Where an operation stores, and that it leaves every other slot alone. */
  lemma ScratchAfterSlot<V>(job: Job<V>, s: State<V>, n: nat, g: nat, k: nat)
    requires ValidShape(job) && SlotEnabled(job, s, n, g, k)
    ensures var s' := SlotStep(job, s, n, g, k);
            match Target(job.sh, Site(n, g, s.pc[RankId(job.sh, n, g)]))
            case None => s'.scratch == s.scratch
            case Some(c) =>
              var r, a := RankId(job.sh, c.node, c.gpu), Addr(job.sh, c.block, k);
              && r < |s.scratch| && a < |s.scratch[r]|
              && s'.scratch == s.scratch[r := s.scratch[r][a := Stored(job, s, n, g, k)]]
  {
    TargetIsWriteOf(job.sh, Site(n, g, s.pc[RankId(job.sh, n, g)]));
    var op := CurrentOp(job, s, n, g);
    match op
    case Put(_, dstSlot, src) => assert dstSlot in SlotsOf(op);
    case Pack(slot, chunk) => assert slot in SlotsOf(op);
    case PortPut(_, dstSlot, _) => assert dstSlot in SlotsOf(op);
    case ReadPut(_, dstSlot, _) => assert dstSlot in SlotsOf(op);
    case _ =>
  }

  lemma SlotPreserved<V>(job: Job<V>, s: State<V>, n: nat, g: nat, k: nat, c: Block, k': nat)
    requires ValidShape(job) && Inv(job, s) && SlotEnabled(job, s, n, g, k)
    requires BlockInRange(job.sh, c) && k' < job.sh.nodes
    ensures SlotOk(job, SlotStep(job, s, n, g, k), c, k')
  {
    var w := Site(n, g, s.pc[RankId(job.sh, n, g)]);
    assert SlotOk(job, s, c, k');
    ScratchAfterSlot(job, s, n, g, k);
    if HasWriter(job.sh, c) {
      WriterTarget(job.sh, c);
      PassedAfterSlot(job, s, n, g, k, Writer(job.sh, c), k');
    }
    if Target(job.sh, w).Some? {
      var t := Target(job.sh, w).value;
      StoredIsExpected(job, s, n, g, k);
      TargetWriter(job.sh, w);
      if RankId(job.sh, c.node, c.gpu) == RankId(job.sh, t.node, t.gpu) &&
         Addr(job.sh, c.block, k') == Addr(job.sh, t.block, k) {
        RankIdUnique(job.sh, c.node, c.gpu, t.node, t.gpu);
        MulAddUnique(job.sh.nodes, c.block, k', t.block, k);
      }
    }
  }

  // ---- the input buffers ----

  /** The three operations that write the input buffer, and the chunk they write. */
  ghost function ChunkTarget(sh: Shape, g: nat, i: nat): Option<nat> {
    if i == sh.gpus - 1 || i == sh.gpus + sh.nodes + 1 then Some(g)
    else if 2 * sh.gpus + sh.nodes + 2 <= i then Some(Skip(g, i - 2 * sh.gpus - sh.nodes - 2))
    else None
  }

  /** The value that slot `k` of the current operation puts into the input buffer. */
  ghost function NewChunk<V>(job: Job<V>, s: State<V>, n: nat, g: nat, k: nat): V
    requires ValidShape(job) && SlotEnabled(job, s, n, g, k)
    requires ChunkTarget(job.sh, g, s.pc[RankId(job.sh, n, g)]).Some?
  {
    var r := RankId(job.sh, n, g);
    match CurrentOp(job, s, n, g)
    case Reduce(chunk, others) =>
      assert chunk in ChunksOf(CurrentOp(job, s, n, g));
      FoldLeft(job.op, s.input[r][chunk + k], ReadAll(job.sh, s, r, others, k))
    case Unpack(_, slot) => Read(s, r, slot + k)
  }

  lemma InputAfterSlot<V>(job: Job<V>, s: State<V>, n: nat, g: nat, k: nat)
    requires ValidShape(job) && SlotEnabled(job, s, n, g, k)
    ensures var s' := SlotStep(job, s, n, g, k);
            match ChunkTarget(job.sh, g, s.pc[RankId(job.sh, n, g)])
            case None => s'.input == s.input
            case Some(p) =>
              var r, a := RankId(job.sh, n, g), Addr(job.sh, p, k);
              && p < job.sh.gpus && a < |s.input[r]|
              && s'.input == s.input[r := s.input[r][a := NewChunk(job, s, n, g, k)]]
  {
    var op := CurrentOp(job, s, n, g);
    match op
    case Reduce(chunk, _) => assert chunk in ChunksOf(op);
    case Unpack(chunk, _) => assert chunk in ChunksOf(op);
    case _ =>
  }

  /** The packet from the `j`-th other device carries that device's chunk. */
  lemma FirstReduceReads<V>(job: Job<V>, s: State<V>, n: nat, g: nat, k: nat, slot: nat, j: nat)
    requires ValidShape(job) && Inv(job, s) && RankInRange(job.sh, n, g) && k < job.sh.nodes
    requires j < job.sh.gpus - 1 && slot == Skip(g, j) * job.sh.nodes + k
    requires Arrived(s, RankId(job.sh, n, g), slot)
    ensures Addr(job.sh, g, k) < TotalGpus(job.sh)
    ensures Read(s, RankId(job.sh, n, g), slot) == Without(Column(job, n, Addr(job.sh, g, k)), g)[j]
  {
    AddrBound(job.sh, g, k, job.sh.gpus);
    assert SlotOk(job, s, Block(n, g, Skip(g, j)), k);
  }

  lemma FirstReduceReadsAll<V>(job: Job<V>, s: State<V>, n: nat, g: nat, k: nat)
    requires ValidShape(job) && Inv(job, s) && RankInRange(job.sh, n, g) && k < job.sh.nodes
    requires var others := OtherBlocks(0, job.sh.nodes, g, job.sh.gpus);
             forall j :: 0 <= j < |others| ==> Arrived(s, RankId(job.sh, n, g), others[j] + k)
    ensures Addr(job.sh, g, k) < TotalGpus(job.sh)
    ensures ReadAll(job.sh, s, RankId(job.sh, n, g), OtherBlocks(0, job.sh.nodes, g, job.sh.gpus), k)
         == Without(Column(job, n, Addr(job.sh, g, k)), g)
  {
    AddrBound(job.sh, g, k, job.sh.gpus);
    var others := OtherBlocks(0, job.sh.nodes, g, job.sh.gpus);
    var read := ReadAll(job.sh, s, RankId(job.sh, n, g), others, k);
    var col := Column(job, n, Addr(job.sh, g, k));
    forall j: nat | j < |read|
      ensures read[j] == Without(col, g)[j]
    {
      FirstReduceReads(job, s, n, g, k, others[j] + k, j);
    }
  }

  /** Before the first reduction the own chunk is still the initial one. */
  lemma OwnChunkInitial<V>(job: Job<V>, s: State<V>, n: nat, g: nat, k: nat)
    requires ValidShape(job) && Inv(job, s) && SlotEnabled(job, s, n, g, k)
    requires s.pc[RankId(job.sh, n, g)] == job.sh.gpus - 1
    ensures var r, c := RankId(job.sh, n, g), Addr(job.sh, g, k);
            c < TotalGpus(job.sh) && r < |s.input| && c < |s.input[r]| && s.input[r][c] == Column(job, n, c)[g]
  {
    assert ChunkOk(job, s, n, g, g, k);
  }

  /** The first reduction starts from the own chunk and adds those of the other devices. */
  lemma FirstReduceFolds<V>(job: Job<V>, s: State<V>, n: nat, g: nat, k: nat)
    requires ValidShape(job) && Inv(job, s) && SlotEnabled(job, s, n, g, k)
    requires s.pc[RankId(job.sh, n, g)] == job.sh.gpus - 1
    ensures var c := Addr(job.sh, g, k);
            && c < TotalGpus(job.sh)
            && NewChunk(job, s, n, g, k) == FoldLeft(job.op, Column(job, n, c)[g], Without(Column(job, n, c), g))
  {
    ReduceFolds(job, s, n, g, k, g * job.sh.nodes, OtherBlocks(0, job.sh.nodes, g, job.sh.gpus));
    OwnChunkInitial(job, s, n, g, k);
    FirstReduceReadsAll(job, s, n, g, k);
  }

  lemma FirstReduceValue<V(!new)>(job: Job<V>, s: State<V>, n: nat, g: nat, k: nat)
    requires ValidJob(job) && Inv(job, s) && SlotEnabled(job, s, n, g, k)
    requires s.pc[RankId(job.sh, n, g)] == job.sh.gpus - 1
    ensures Addr(job.sh, g, k) < TotalGpus(job.sh)
    ensures NewChunk(job, s, n, g, k) == NodeSum(job, n, Addr(job.sh, g, k))
  {
    FirstReduceFolds(job, s, n, g, k);
    NodeSumFromSelf(job, n, g, Addr(job.sh, g, k));
  }

  /** The packet from the `j`-th other machine carries that machine's sum. */
  lemma SecondReduceReads<V>(job: Job<V>, s: State<V>, n: nat, g: nat, k: nat, slot: nat, j: nat)
    requires ValidShape(job) && Inv(job, s) && RankInRange(job.sh, n, g) && k < job.sh.nodes
    requires j < job.sh.nodes - 1 && slot == InterOffset(job.sh) + Skip(n, j) * job.sh.nodes + k
    requires Arrived(s, RankId(job.sh, n, g), slot)
    ensures Addr(job.sh, g, k) < TotalGpus(job.sh)
    ensures Read(s, RankId(job.sh, n, g), slot) == NodeSum(job, Skip(n, j), Addr(job.sh, g, k))
  {
    AddrBound(job.sh, g, k, job.sh.gpus);
    InterAddr(job.sh, Skip(n, j), k);
    assert SlotOk(job, s, Block(n, g, job.sh.gpus + Skip(n, j)), k);
  }

  lemma SecondReduceReadsAll<V>(job: Job<V>, s: State<V>, n: nat, g: nat, k: nat)
    requires ValidShape(job) && Inv(job, s) && RankInRange(job.sh, n, g) && k < job.sh.nodes
    requires var others := OtherBlocks(InterOffset(job.sh), job.sh.nodes, n, job.sh.nodes);
             forall j :: 0 <= j < |others| ==> Arrived(s, RankId(job.sh, n, g), others[j] + k)
    ensures Addr(job.sh, g, k) < TotalGpus(job.sh)
    ensures ReadAll(job.sh, s, RankId(job.sh, n, g),
                    OtherBlocks(InterOffset(job.sh), job.sh.nodes, n, job.sh.nodes), k)
         == Without(NodeSums(job, Addr(job.sh, g, k)), n)
  {
    AddrBound(job.sh, g, k, job.sh.gpus);
    var others := OtherBlocks(InterOffset(job.sh), job.sh.nodes, n, job.sh.nodes);
    var read := ReadAll(job.sh, s, RankId(job.sh, n, g), others, k);
    var sums := NodeSums(job, Addr(job.sh, g, k));
    forall j: nat | j < |read|
      ensures read[j] == Without(sums, n)[j]
    {
      SecondReduceReads(job, s, n, g, k, others[j] + k, j);
    }
  }

  /** The second reduction starts from the machine's own sum and adds those of the others. */
  lemma SecondReduceFolds<V>(job: Job<V>, s: State<V>, n: nat, g: nat, k: nat)
    requires ValidShape(job) && Inv(job, s) && SlotEnabled(job, s, n, g, k)
    requires s.pc[RankId(job.sh, n, g)] == job.sh.gpus + job.sh.nodes + 1
    ensures var c := Addr(job.sh, g, k);
            && c < TotalGpus(job.sh)
            && NewChunk(job, s, n, g, k) == FoldLeft(job.op, NodeSums(job, c)[n], Without(NodeSums(job, c), n))
  {
    ReduceFolds(job, s, n, g, k, g * job.sh.nodes, OtherBlocks(InterOffset(job.sh), job.sh.nodes, n, job.sh.nodes));
    OwnChunkReduced(job, s, n, g, k);
    SecondReduceReadsAll(job, s, n, g, k);
  }

  lemma SecondReduceValue<V(!new)>(job: Job<V>, s: State<V>, n: nat, g: nat, k: nat)
    requires ValidJob(job) && Inv(job, s) && SlotEnabled(job, s, n, g, k)
    requires s.pc[RankId(job.sh, n, g)] == job.sh.gpus + job.sh.nodes + 1
    ensures Addr(job.sh, g, k) < TotalGpus(job.sh)
    ensures NewChunk(job, s, n, g, k) == Total(job, Addr(job.sh, g, k))
  {
    SecondReduceFolds(job, s, n, g, k);
    TotalFromNodeSums(job, n, Addr(job.sh, g, k));
  }

  /** Before the second reduction the own chunk holds the machine's sum. */
  lemma OwnChunkReduced<V>(job: Job<V>, s: State<V>, n: nat, g: nat, k: nat)
    requires ValidShape(job) && Inv(job, s) && SlotEnabled(job, s, n, g, k)
    requires s.pc[RankId(job.sh, n, g)] == job.sh.gpus + job.sh.nodes + 1
    ensures var r, c := RankId(job.sh, n, g), Addr(job.sh, g, k);
            c < TotalGpus(job.sh) && r < |s.input| && c < |s.input[r]| && s.input[r][c] == NodeSums(job, c)[n]
  {
    assert ChunkOk(job, s, n, g, g, k);
  }

  /** A reduction adds the packets of the others to the own chunk. */
  lemma ReduceFolds<V>(job: Job<V>, s: State<V>, n: nat, g: nat, k: nat, chunk: nat, others: seq<nat>)
    requires ValidShape(job) && SlotEnabled(job, s, n, g, k)
    requires CurrentOp(job, s, n, g) == Reduce(chunk, others)
    requires ChunkTarget(job.sh, g, s.pc[RankId(job.sh, n, g)]).Some?
    ensures var r := RankId(job.sh, n, g);
            && r < |s.input| && chunk + k < |s.input[r]|
            && (forall j :: 0 <= j < |others| ==> Arrived(s, r, others[j] + k))
            && NewChunk(job, s, n, g, k) == FoldLeft(job.op, s.input[r][chunk + k], ReadAll(job.sh, s, r, others, k))
  {
    assert chunk in ChunksOf(CurrentOp(job, s, n, g));
  }

  lemma UnpackValue<V>(job: Job<V>, s: State<V>, n: nat, g: nat, k: nat, p: nat)
    requires ValidShape(job) && Inv(job, s) && SlotEnabled(job, s, n, g, k)
    requires var i := s.pc[RankId(job.sh, n, g)];
             2 * job.sh.gpus + job.sh.nodes + 2 <= i && p == Skip(g, i - 2 * job.sh.gpus - job.sh.nodes - 2)
    ensures p < job.sh.gpus && Addr(job.sh, p, k) < TotalGpus(job.sh)
    ensures NewChunk(job, s, n, g, k) == Total(job, Addr(job.sh, p, k))
  {
    AddrBound(job.sh, p, k, job.sh.gpus);
    assert SlotOk(job, s, Block(n, g, job.sh.gpus + job.sh.nodes + p), k);
    UnpackReads(job, s, n, g, k, p);
  }

  /** Unpacking reads the broadcast block of the device whose chunks it fills. */
  lemma UnpackReads<V>(job: Job<V>, s: State<V>, n: nat, g: nat, k: nat, p: nat)
    requires ValidShape(job) && SlotEnabled(job, s, n, g, k)
    requires CurrentOp(job, s, n, g) == UnpackOp(job.sh, p)
    requires ChunkTarget(job.sh, g, s.pc[RankId(job.sh, n, g)]).Some?
    ensures var r, a := RankId(job.sh, n, g), Addr(job.sh, job.sh.gpus + job.sh.nodes + p, k);
            Arrived(s, r, a) && NewChunk(job, s, n, g, k) == Read(s, r, a)
  {
    BroadcastAddr(job.sh, p, k);
  }

  /** Whatever an operation puts into the input buffer is what must be there after it. */
  lemma NewChunkIsExpected<V(!new)>(job: Job<V>, s: State<V>, n: nat, g: nat, k: nat)
    requires ValidJob(job) && Inv(job, s) && SlotEnabled(job, s, n, g, k)
    ensures var t := ChunkTarget(job.sh, g, s.pc[RankId(job.sh, n, g)]);
            t.Some? ==>
              && t.value < job.sh.gpus
              && NewChunk(job, s, n, g, k) == ExpectedChunk(job, SlotStep(job, s, n, g, k), n, g, t.value, k)
  {
    var i := s.pc[RankId(job.sh, n, g)];
    var t := ChunkTarget(job.sh, g, i);
    if i == job.sh.gpus - 1 {
      FirstReduceValue(job, s, n, g, k);
    } else if i == job.sh.gpus + job.sh.nodes + 1 {
      SecondReduceValue(job, s, n, g, k);
    } else if t.Some? {
      UnpackValue(job, s, n, g, k, t.value);
    }
  }

  /** What any other chunk must hold does not change. */
  lemma ExpectedChunkElsewhere<V>(job: Job<V>, s: State<V>, n: nat, g: nat, k: nat,
                                  n': nat, g': nat, p: nat, k': nat)
    requires ValidShape(job) && SlotEnabled(job, s, n, g, k)
    requires RankInRange(job.sh, n', g') && p < job.sh.gpus && k' < job.sh.nodes
    requires !(n' == n && g' == g && k' == k && ChunkTarget(job.sh, g, s.pc[RankId(job.sh, n, g)]) == Some(p))
    ensures ExpectedChunk(job, SlotStep(job, s, n, g, k), n', g', p, k') == ExpectedChunk(job, s, n', g', p, k')
  {
    var N, G, s' := job.sh.nodes, job.sh.gpus, SlotStep(job, s, n, g, k);
    if p == g' {
      PassedAfterSlot(job, s, n, g, k, Site(n', g', G - 1), k');
      PassedAfterSlot(job, s, n, g, k, Site(n', g', G + N + 1), k');
    } else {
      PassedAfterSlot(job, s, n, g, k, Site(n', g', 2 * G + N + 2 + Unskip(g', p)), k');
    }
    SamePassed(job, s, s', n', g', p, k');
  }

  /** What a chunk must hold depends only on which of its operations have passed. */
  lemma SamePassed<V>(job: Job<V>, s: State<V>, s': State<V>, n: nat, g: nat, p: nat, k: nat)
    requires ValidShape(job) && RankInRange(job.sh, n, g) && p < job.sh.gpus && k < job.sh.nodes
    requires var N, G := job.sh.nodes, job.sh.gpus;
             if p == g then
               && (Passed(job.sh, s', Site(n, g, G - 1), k) <==> Passed(job.sh, s, Site(n, g, G - 1), k))
               && (Passed(job.sh, s', Site(n, g, G + N + 1), k) <==> Passed(job.sh, s, Site(n, g, G + N + 1), k))
             else
               var w := Site(n, g, 2 * G + N + 2 + Unskip(g, p));
               Passed(job.sh, s', w, k) <==> Passed(job.sh, s, w, k)
    ensures ExpectedChunk(job, s', n, g, p, k) == ExpectedChunk(job, s, n, g, p, k)
  {
  }

  lemma ChunkPreserved<V(!new)>(job: Job<V>, s: State<V>, n: nat, g: nat, k: nat,
                                n': nat, g': nat, p: nat, k': nat)
    requires ValidJob(job) && Inv(job, s) && SlotEnabled(job, s, n, g, k)
    requires RankInRange(job.sh, n', g') && p < job.sh.gpus && k' < job.sh.nodes
    ensures ChunkOk(job, SlotStep(job, s, n, g, k), n', g', p, k')
  {
    var t := ChunkTarget(job.sh, g, s.pc[RankId(job.sh, n, g)]);
    assert ChunkOk(job, s, n', g', p, k');
    InputAfterSlot(job, s, n, g, k);
    NewChunkIsExpected(job, s, n, g, k);
    if !(n' == n && g' == g && k' == k && t == Some(p)) {
      ExpectedChunkElsewhere(job, s, n, g, k, n', g', p, k');
      if t.Some? && RankId(job.sh, n', g') == RankId(job.sh, n, g) && Addr(job.sh, p, k') == Addr(job.sh, t.value, k) {
        RankIdUnique(job.sh, n', g', n, g);
        MulAddUnique(job.sh.nodes, p, k', t.value, k);
        assert false;
      }
    }
  }

  // ---- the invariant over a run ----

  lemma SlotStepInv<V(!new)>(job: Job<V>, s: State<V>, n: nat, g: nat, k: nat)
    requires ValidJob(job) && Inv(job, s) && SlotEnabled(job, s, n, g, k)
    ensures Inv(job, SlotStep(job, s, n, g, k))
  {
    var s' := SlotStep(job, s, n, g, k);
    ScratchAfterSlot(job, s, n, g, k);
    InputAfterSlot(job, s, n, g, k);
    forall c: Block, k': nat | BlockInRange(job.sh, c) && k' < job.sh.nodes
      ensures SlotOk(job, s', c, k')
    {
      SlotPreserved(job, s, n, g, k, c, k');
    }
    forall n': nat, g': nat, p: nat, k': nat | RankInRange(job.sh, n', g') && p < job.sh.gpus && k' < job.sh.nodes
      ensures ChunkOk(job, s', n', g', p, k')
    {
      ChunkPreserved(job, s, n, g, k, n', g', p, k');
    }
  }

  lemma NextStepInv<V>(job: Job<V>, s: State<V>, n: nat, g: nat)
    requires ValidShape(job) && Inv(job, s) && NextEnabled(job, s, n, g)
    ensures Inv(job, NextStep(job, s, n, g))
  {
    var s' := NextStep(job, s, n, g);
    forall c: Block, k: nat | BlockInRange(job.sh, c) && k < job.sh.nodes
      ensures SlotOk(job, s', c, k)
    {
      assert SlotOk(job, s, c, k);
    }
    forall n': nat, g': nat, p: nat, k: nat | RankInRange(job.sh, n', g') && p < job.sh.gpus && k < job.sh.nodes
      ensures ChunkOk(job, s', n', g', p, k)
    {
      assert ChunkOk(job, s, n', g', p, k);
    }
  }

  lemma StepInv<V(!new)>(job: Job<V>, s: State<V>, s': State<V>)
    requires ValidJob(job) && Inv(job, s) && Step(job, s, s')
    ensures Inv(job, s')
  {
    if n, g, k :| SlotEnabled(job, s, n, g, k) && s' == SlotStep(job, s, n, g, k) {
      SlotStepInv(job, s, n, g, k);
    } else {
      var n, g :| NextEnabled(job, s, n, g) && s' == NextStep(job, s, n, g);
      NextStepInv(job, s, n, g);
    }
  }

  lemma {:induction false} RunInv<V(!new)>(job: Job<V>, run: seq<State<V>>)
    requires ValidJob(job) && Run(job, run)
    ensures Inv(job, run[|run| - 1])
    decreases |run|
  {
    if |run| == 1 {
      InitialInv(job);
    } else {
      RunInv(job, run[..|run| - 1]);
      StepInv(job, run[|run| - 2], run[|run| - 1]);
    }
  }

  // ---- a run never gets stuck ----

  /** A block whose writer precedes every rank's position has arrived. */
  lemma BlockArrived<V>(job: Job<V>, s: State<V>, c: Block, k: nat, i: nat)
    requires ValidShape(job) && Inv(job, s) && BlockInRange(job.sh, c) && k < job.sh.nodes
    requires HasWriter(job.sh, c) && Writer(job.sh, c).index < i
    requires forall r :: 0 <= r < |s.pc| ==> i <= s.pc[r]
    ensures Arrived(s, RankId(job.sh, c.node, c.gpu), Addr(job.sh, c.block, k))
  {
    WriterTarget(job.sh, c);
    var w := Writer(job.sh, c);
    RankIdBound(job.sh, w.node, w.gpu);
    assert SlotOk(job, s, c, k);
  }

  lemma ReduceReadyAtFront<V>(job: Job<V>, s: State<V>, n: nat, g: nat, k: nat)
    requires ValidShape(job) && Inv(job, s) && AtOp(job, s, n, g) && k < job.sh.nodes
    requires InBounds(job.sh, CurrentOp(job, s, n, g)) && CurrentOp(job, s, n, g).Reduce?
    requires forall r :: 0 <= r < |s.pc| ==> s.pc[RankId(job.sh, n, g)] <= s.pc[r]
    ensures Ready(job.sh, s, RankId(job.sh, n, g), CurrentOp(job, s, n, g), k)
  {
    var G := job.sh.gpus;
    var i := s.pc[RankId(job.sh, n, g)];
    var others := CurrentOp(job, s, n, g).others;
    forall j: nat | j < |others|
      ensures Arrived(s, RankId(job.sh, n, g), others[j] + k)
    {
      if i == G - 1 {
        BlockArrived(job, s, Block(n, g, Skip(g, j)), k, i);
      } else {
        InterAddr(job.sh, Skip(n, j), k);
        BlockArrived(job, s, Block(n, g, G + Skip(n, j)), k, i);
      }
    }
  }

  /** A rank that no other rank is behind can always go on. */
  lemma FrontRankReady<V>(job: Job<V>, s: State<V>, n: nat, g: nat, k: nat)
    requires ValidShape(job) && Inv(job, s) && AtOp(job, s, n, g) && k < job.sh.nodes
    requires InBounds(job.sh, CurrentOp(job, s, n, g))
    requires forall r :: 0 <= r < |s.pc| ==> s.pc[RankId(job.sh, n, g)] <= s.pc[r]
    ensures Ready(job.sh, s, RankId(job.sh, n, g), CurrentOp(job, s, n, g), k)
  {
    var N, G := job.sh.nodes, job.sh.gpus;
    var i := s.pc[RankId(job.sh, n, g)];
    match CurrentOp(job, s, n, g)
    case Reduce(_, _) =>
      ReduceReadyAtFront(job, s, n, g, k);
    case ReadPut(_, _, _) =>
      InterAddr(job.sh, n, k);
      BlockArrived(job, s, Block(n, g, G + n), k, i);
    case Unpack(_, _) =>
      var p := Skip(g, i - 2 * G - N - 2);
      BroadcastAddr(job.sh, p, k);
      BlockArrived(job, s, Block(n, g, G + N + p), k, i);
    case _ =>
  }

  lemma {:induction false} SlowestRank(pc: seq<nat>) returns (r: nat)
    requires pc != []
    ensures r < |pc| && forall q :: 0 <= q < |pc| ==> pc[r] <= pc[q]
  {
    r := 0;
    for i := 1 to |pc|
      invariant r < |pc| && forall q :: 0 <= q < i ==> pc[r] <= pc[q]
    {
      if pc[i] < pc[r] { r := i; }
    }
  }

  lemma RankIdOnto(sh: Shape, r: nat) returns (n: nat, g: nat)
    requires Valid(sh) && r < TotalGpus(sh)
    ensures RankInRange(sh, n, g) && RankId(sh, n, g) == r
  {
    n, g := r / sh.gpus, r % sh.gpus;
    if sh.nodes <= n {
      assert n * sh.gpus >= sh.nodes * sh.gpus by { if sh.nodes < n { MulStep(sh.nodes, n, sh.gpus); } }
    }
  }

  /** In every reachable state, either all ranks are at the end or some rank can take a step. */
  lemma Progress<V>(job: Job<V>, s: State<V>)
    requires ValidShape(job) && Inv(job, s) && !Finished(job, s)
    ensures exists s' :: Step(job, s, s')
  {
    var r := SlowestRank(s.pc);
    var n, g := RankIdOnto(job.sh, r);
    OpInBounds(job.sh, n, g, s.pc[r]);
    if k: nat :| k < job.sh.nodes && k !in s.done[r] {
      FrontRankReady(job, s, n, g, k);
      assert SlotEnabled(job, s, n, g, k);
      assert Step(job, s, SlotStep(job, s, n, g, k));
    } else {
      assert NextEnabled(job, s, n, g);
      assert Step(job, s, NextStep(job, s, n, g));
    }
  }

  // ---- every run is finite ----

  ghost function SumNat(xs: seq<nat>): nat {
    if xs == [] then 0 else xs[0] + SumNat(xs[1..])
  }

  lemma {:induction false} SumNatUpdate(xs: seq<nat>, i: nat, v: nat)
    requires i < |xs|
    ensures SumNat(xs[i := v]) == SumNat(xs) - xs[i] + v
  {
    if i == 0 {
      assert xs[i := v][1..] == xs[1..];
    } else {
      SumNatUpdate(xs[1..], i - 1, v);
      assert xs[i := v][1..] == xs[1..][i - 1 := v];
    }
  }

  lemma {:induction false} SumNatBound(xs: seq<nat>, b: nat)
    requires forall i :: 0 <= i < |xs| ==> xs[i] <= b
    ensures SumNat(xs) <= |xs| * b
  {
    if xs != [] {
      SumNatBound(xs[1..], b);
      assert |xs| * b == |xs[1..]| * b + b;
    }
  }

  ghost function RankWork<V>(job: Job<V>, s: State<V>): (w: seq<nat>)
    requires WellShaped(job.sh, s)
    ensures |w| == |s.pc|
  {
    seq(|s.pc|, r requires 0 <= r < |s.pc| && r < |s.done| => s.pc[r] * (job.sh.nodes + 1) + |s.done[r]|)
  }

  ghost function Work<V>(job: Job<V>, s: State<V>): nat
    requires WellShaped(job.sh, s)
  {
    SumNat(RankWork(job, s))
  }

  ghost function MaxWork(sh: Shape): nat {
    TotalGpus(sh) * (ProgramLength(sh) * (sh.nodes + 1))
  }

  lemma SlotWork<V>(job: Job<V>, s: State<V>, n: nat, g: nat, k: nat)
    requires SlotEnabled(job, s, n, g, k) && WellShaped(job.sh, SlotStep(job, s, n, g, k))
    ensures Work(job, SlotStep(job, s, n, g, k)) == Work(job, s) + 1
  {
    var r := RankId(job.sh, n, g);
    assert RankWork(job, SlotStep(job, s, n, g, k)) == RankWork(job, s)[r := RankWork(job, s)[r] + 1];
    SumNatUpdate(RankWork(job, s), r, RankWork(job, s)[r] + 1);
  }

  lemma NextWork<V>(job: Job<V>, s: State<V>, n: nat, g: nat)
    requires NextEnabled(job, s, n, g) && CountersOk(job, s)
    ensures Work(job, NextStep(job, s, n, g)) == Work(job, s) + 1
  {
    var r := RankId(job.sh, n, g);
    SubsetSize(s.done[r], job.sh.nodes);
    assert (s.pc[r] + 1) * (job.sh.nodes + 1) == s.pc[r] * (job.sh.nodes + 1) + job.sh.nodes + 1;
    assert RankWork(job, NextStep(job, s, n, g)) == RankWork(job, s)[r := RankWork(job, s)[r] + 1];
    SumNatUpdate(RankWork(job, s), r, RankWork(job, s)[r] + 1);
  }

  /** Each step does one unit of the work. */
  lemma WorkGrows<V>(job: Job<V>, s: State<V>, s': State<V>)
    requires ValidShape(job) && WellShaped(job.sh, s) && CountersOk(job, s)
    requires Step(job, s, s') && WellShaped(job.sh, s')
    ensures Work(job, s') == Work(job, s) + 1
  {
    if n, g, k :| SlotEnabled(job, s, n, g, k) && s' == SlotStep(job, s, n, g, k) {
      SlotWork(job, s, n, g, k);
    } else {
      var n, g :| NextEnabled(job, s, n, g) && s' == NextStep(job, s, n, g);
      NextWork(job, s, n, g);
    }
  }

  lemma WorkBounded<V>(job: Job<V>, s: State<V>)
    requires ValidShape(job) && Inv(job, s)
    ensures Work(job, s) <= MaxWork(job.sh)
  {
    var b := ProgramLength(job.sh) * (job.sh.nodes + 1);
    forall r | 0 <= r < |s.pc|
      ensures RankWork(job, s)[r] <= b
    {
      SubsetSize(s.done[r], job.sh.nodes);
      if s.pc[r] < ProgramLength(job.sh) {
        MulStep(s.pc[r], ProgramLength(job.sh), job.sh.nodes + 1);
      }
    }
    SumNatBound(RankWork(job, s), b);
  }

  lemma {:induction false} RunLength<V(!new)>(job: Job<V>, run: seq<State<V>>)
    requires ValidJob(job) && Run(job, run)
    ensures Inv(job, run[|run| - 1]) && Work(job, run[|run| - 1]) >= |run| - 1
    decreases |run|
  {
    RunInv(job, run);
    if |run| > 1 {
      RunLength(job, run[..|run| - 1]);
      WorkGrows(job, run[|run| - 2], run[|run| - 1]);
    }
  }

  // ---- the theorem ----

  lemma FinishedMeansReduced<V>(job: Job<V>, s: State<V>, r: nat, c: nat)
    requires ValidShape(job) && Inv(job, s) && Finished(job, s)
    requires r < TotalGpus(job.sh) && c < TotalGpus(job.sh)
    ensures s.input[r][c] == Total(job, c)
  {
    var n, g := RankIdOnto(job.sh, r);
    var sh' := Shape(job.sh.gpus, job.sh.nodes);
    var p, k := RankIdOnto(sh', c);
    assert ChunkOk(job, s, n, g, p, k);
  }

  /** Every interleaving of the ranks' operations is finite and never stuck before the end, and
      at the end every chunk of every rank's input is that chunk reduced over all ranks. */
  lemma EveryRunReduces<V(!new)>(job: Job<V>, run: seq<State<V>>)
    requires ValidJob(job) && Run(job, run)
    ensures |run| - 1 <= MaxWork(job.sh)
    ensures var s := run[|run| - 1];
            && WellShaped(job.sh, s)
            && (!Finished(job, s) ==> exists s' :: Step(job, s, s'))
            && (Finished(job, s) ==>
                  forall r, c :: 0 <= r < TotalGpus(job.sh) && 0 <= c < TotalGpus(job.sh) ==>
                    s.input[r][c] == Total(job, c))
  {
    var s := run[|run| - 1];
    RunLength(job, run);
    WorkBounded(job, s);
    if !Finished(job, s) {
      Progress(job, s);
    } else {
      forall r, c | 0 <= r < TotalGpus(job.sh) && 0 <= c < TotalGpus(job.sh)
        ensures s.input[r][c] == Total(job, c)
      {
        FinishedMeansReduced(job, s, r, c);
      }
    }
  }
}
