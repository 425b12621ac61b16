/** Which thread blocks run the operations of a rank, and why no two of them race on the rank's own
    buffers. */
module AllReduceOrder {
  import opened Arith
  import opened AllReduceProgram

  /** The thread blocks an operation runs on: the group of one other device, all the groups together,
      or the first thread block. Operations on the same lane split their chunks alike, so each thread
      block keeps their order. */
  datatype Lane = Group(id: nat) | AllGroups | FirstBlock

  function LaneAt(sh: Shape, gpu: nat, i: nat): Lane
    requires sh.nodes >= 1 && sh.gpus >= 1
  {
    var N, G := sh.nodes, sh.gpus;
    if i < G - 1 then GroupOf(gpu, Skip(gpu, i))
    else if i <= G || i == G + N + 1 || i == G + N + 2 then AllGroups
    else if i < G + N + 1 then FirstBlock
    else if i < 2 * G + N + 2 then GroupOf(gpu, Skip(gpu, i - G - N - 3))
    else GroupOf(gpu, Skip(gpu, i - 2 * G - N - 2))
  }

  function GroupOf(gpu: nat, peer: nat): Lane
    requires peer != gpu
  {
    Group(Unskip(gpu, peer))
  }

  /** An access to `nodes` consecutive slots of the rank's own input or scratch buffer. A flagged read
      waits for the packets it reads. */
  datatype Access = Access(input: bool, start: nat, write: bool, flagged: bool)

  function Reads(starts: seq<nat>): seq<Access> {
    seq(|starts|, j requires 0 <= j < |starts| => Access(false, starts[j], false, true))
  }

  function LocalAccesses(op: Op): seq<Access> {
    match op
    case Put(_, _, src) => [Access(true, src, false, false)]
    case Reduce(chunk, others) => [Access(true, chunk, false, false), Access(true, chunk, true, false)] + Reads(others)
    case Pack(slot, chunk) => [Access(true, chunk, false, false), Access(false, slot, true, false)]
    case Barrier => []
    case PortPut(_, _, srcSlot) => [Access(false, srcSlot, false, false)]
    case ReadPut(_, _, srcSlot) => [Access(false, srcSlot, false, true)]
    case Unpack(chunk, slot) => [Access(true, chunk, true, false), Access(false, slot, false, true)]
  }

  ghost predicate Conflict(sh: Shape, a: Access, b: Access) {
    && a.input == b.input && (a.write || b.write)
    && a.start < b.start + sh.nodes && b.start < a.start + sh.nodes
  }

  /** One lane runs both operations, or all thread blocks meet between them. */
  ghost predicate InOrder(sh: Shape, node: nat, gpu: nat, i: nat, j: nat)
    requires sh.nodes >= 1 && sh.gpus >= 1
  {
    || LaneAt(sh, gpu, i) == LaneAt(sh, gpu, j)
    || exists b: nat :: i < b < j && OpAt(sh, node, gpu, b).Barrier?
  }

  /** The lane is decided by the input block that an operation touches. */
  lemma InputLane(sh: Shape, node: nat, gpu: nat, i: nat, a: Access) returns (block: nat)
    requires Valid(sh) && RankInRange(sh, node, gpu) && i < ProgramLength(sh)
    requires a in LocalAccesses(OpAt(sh, node, gpu, i)) && a.input
    ensures a.start == block * sh.nodes
    ensures LaneAt(sh, gpu, i) == if block == gpu then AllGroups else GroupOf(gpu, block)
  {
    var N, G := sh.nodes, sh.gpus;
    block := if i < G - 1 then Skip(gpu, i)
             else if i < 2 * G + N + 2 then gpu
             else Skip(gpu, i - 2 * G - N - 2);
  }

  /** The repacking before the sends, and the one after them. */
  ghost predicate Repacks(sh: Shape, node: nat, gpu: nat, i: nat, start: nat) {
    || (i == sh.gpus && start == gpu * sh.nodes)
    || (i == sh.gpus + sh.nodes + 2 && start == (sh.gpus + node) * sh.nodes)
  }

  /** Only the two repackings write scratch slots of their own rank. */
  lemma ScratchWrite(sh: Shape, node: nat, gpu: nat, i: nat, a: Access)
    requires Valid(sh) && RankInRange(sh, node, gpu) && i < ProgramLength(sh)
    requires a in LocalAccesses(OpAt(sh, node, gpu, i)) && !a.input && a.write
    ensures Repacks(sh, node, gpu, i, a.start)
  {
    assert (sh.gpus + node) * sh.nodes == InterOffset(sh) + node * sh.nodes;
  }

  ghost predicate IsSend(sh: Shape, i: nat) { sh.gpus + 2 <= i < sh.gpus + sh.nodes + 1 }

  /** Only the sends to the other nodes read scratch slots without waiting for their packets. */
  lemma ScratchRead(sh: Shape, node: nat, gpu: nat, i: nat, a: Access)
    requires Valid(sh) && RankInRange(sh, node, gpu) && i < ProgramLength(sh)
    requires a in LocalAccesses(OpAt(sh, node, gpu, i)) && !a.input && !a.write
    ensures i >= sh.gpus - 1 && i != sh.gpus + 1
    ensures if IsSend(sh, i) then a.start == gpu * sh.nodes else a.flagged
  {
  }

  /** What is read before a repacking and in its way is on the same lane or behind the barrier. */
  lemma ReadThenRepack(sh: Shape, node: nat, gpu: nat, i: nat, a: nat, j: nat, b: nat)
    requires Valid(sh) && RankInRange(sh, node, gpu) && sh.gpus - 1 <= i < j < ProgramLength(sh)
    requires i != sh.gpus + 1 && (IsSend(sh, i) ==> a == gpu * sh.nodes)
    requires Repacks(sh, node, gpu, j, b) && a < b + sh.nodes && b < a + sh.nodes
    ensures InOrder(sh, node, gpu, i, j)
  {
    assert OpAt(sh, node, gpu, sh.gpus + 1).Barrier?;
    if IsSend(sh, i) {
      CloseMultiples(sh.nodes, gpu, sh.gpus + node);
    }
  }

  /** What is sent after a repacking is behind the barrier. */
  lemma RepackThenSend(sh: Shape, node: nat, gpu: nat, i: nat, a: nat, j: nat)
    requires Valid(sh) && RankInRange(sh, node, gpu) && i < j < ProgramLength(sh)
    requires Repacks(sh, node, gpu, i, a) && IsSend(sh, j)
    ensures InOrder(sh, node, gpu, i, j)
  {
    assert OpAt(sh, node, gpu, sh.gpus + 1).Barrier?;
  }

  lemma RepacksInOrder(sh: Shape, node: nat, gpu: nat, i: nat, a: nat, j: nat, b: nat)
    requires Valid(sh) && RankInRange(sh, node, gpu) && i < j < ProgramLength(sh)
    requires Repacks(sh, node, gpu, i, a) && Repacks(sh, node, gpu, j, b)
    ensures InOrder(sh, node, gpu, i, j)
  {
  }

  lemma ScratchInOrder(sh: Shape, node: nat, gpu: nat, i: nat, a: Access, j: nat, b: Access)
    requires Valid(sh) && RankInRange(sh, node, gpu) && i < j < ProgramLength(sh)
    requires a in LocalAccesses(OpAt(sh, node, gpu, i)) && b in LocalAccesses(OpAt(sh, node, gpu, j))
    requires Conflict(sh, a, b) && !a.input
    ensures InOrder(sh, node, gpu, i, j) || (a.write && b.flagged)
  {
    if !a.write {
      ScratchRead(sh, node, gpu, i, a);
      ScratchWrite(sh, node, gpu, j, b);
      ReadThenRepack(sh, node, gpu, i, a.start, j, b.start);
    } else {
      ScratchWrite(sh, node, gpu, i, a);
      if b.write {
        ScratchWrite(sh, node, gpu, j, b);
        RepacksInOrder(sh, node, gpu, i, a.start, j, b.start);
      } else {
        ScratchRead(sh, node, gpu, j, b);
        if IsSend(sh, j) { RepackThenSend(sh, node, gpu, i, a.start, j); }
      }
    }
  }

  /** Any two operations of a rank that touch the same slots of its buffers, one of them writing, are
      kept in program order: by running on the same lane, by the barrier between them, or because the
      later one reads packets and waits for what the earlier one writes. */
  lemma ConflictsInOrder(sh: Shape, node: nat, gpu: nat, i: nat, a: Access, j: nat, b: Access)
    requires Valid(sh) && RankInRange(sh, node, gpu) && i < j < ProgramLength(sh)
    requires a in LocalAccesses(OpAt(sh, node, gpu, i)) && b in LocalAccesses(OpAt(sh, node, gpu, j))
    requires Conflict(sh, a, b)
    ensures InOrder(sh, node, gpu, i, j) || (a.write && b.flagged)
  {
    if a.input {
      var x := InputLane(sh, node, gpu, i, a);
      var y := InputLane(sh, node, gpu, j, b);
      CloseMultiples(sh.nodes, x, y);
    } else {
      ScratchInOrder(sh, node, gpu, i, a, j, b);
    }
  }

  /** The repacking and the sends of it to the other nodes run on different thread blocks, and a barrier
      stands between them. */
  lemma BarrierBeforeSends(sh: Shape, node: nat, gpu: nat, i: nat, j: nat)
    requires Valid(sh) && RankInRange(sh, node, gpu) && i < j < ProgramLength(sh)
    requires OpAt(sh, node, gpu, i).Pack? && OpAt(sh, node, gpu, j).PortPut?
    ensures LaneAt(sh, gpu, i) != LaneAt(sh, gpu, j)
    ensures exists b: nat :: i < b < j && OpAt(sh, node, gpu, b).Barrier?
  {
    assert OpAt(sh, node, gpu, sh.gpus + 1).Barrier?;
  }
}
