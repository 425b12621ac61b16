/** The 128-bit work element that the device pushes and the proxy decodes. */
module Trigger {
  import opened Arith

  const BITS_9: nat := 0x200
  const BITS_3: nat := 0x8
  const BITS_10: nat := 0x400
  const BITS_32: nat := 0x1_0000_0000
  const BITS_63: nat := 0x8000_0000_0000_0000

  /** The two 64-bit words of a trigger. */
  datatype Raw = Raw(fst: nat, snd: nat)

  ghost predicate Words(r: Raw) { r.fst < WORD && r.snd < WORD }

  /** The arguments of the trigger constructor, and what the bit fields decode to. */
  datatype Fields = Fields(kind: nat, dstId: nat, dstOffset: nat, srcId: nat, srcOffset: nat,
                           bytes: nat, semaphoreId: nat)

  /** What the constructor's assertions demand. */
  ghost predicate InRange(f: Fields) {
    && f.kind < BITS_3 && f.dstId < BITS_9 && f.dstOffset < BITS_32 && f.srcId < BITS_9
    && f.srcOffset < BITS_32 && 0 < f.bytes < BITS_32 && f.semaphoreId < BITS_10
  }

  /** What the constructor keeps of arguments that are too large: their low bits. */
  function Masked(f: Fields): Fields {
    Fields(f.kind % BITS_3, f.dstId % BITS_9, f.dstOffset % BITS_32, f.srcId % BITS_9,
           f.srcOffset % BITS_32, f.bytes % BITS_32, f.semaphoreId % BITS_10)
  }

  /** Shift-and-add, widest field first. */
  function Encode(f: Fields): Raw {
    Raw((f.srcOffset % BITS_32) * BITS_32 + f.bytes % BITS_32,
        ((((f.semaphoreId % BITS_10) * BITS_3 + f.kind % BITS_3) * BITS_9 + f.dstId % BITS_9) * BITS_9
          + f.srcId % BITS_9) * BITS_32 + f.dstOffset % BITS_32)
  }

  /** The bit fields, by their positions in the words. */
  function Decode(r: Raw): Fields {
    var size := r.fst % BITS_32;
    var srcOffset := r.fst / BITS_32 % BITS_32;
    var dstOffset := r.snd % BITS_32;
    var srcId := r.snd / 0x1_0000_0000 % BITS_9;
    var dstId := r.snd / 0x200_0000_0000 % BITS_9;
    var kind := r.snd / 0x4_0000_0000_0000 % BITS_3;
    var semaphoreId := r.snd / 0x20_0000_0000_0000 % BITS_10;
    Fields(kind, dstId, dstOffset, srcId, srcOffset, size, semaphoreId)
  }

  /** Exclusive or with the reserved top bit. */
  function Flip(snd: nat): nat {
    if snd < BITS_63 then snd + BITS_63 else snd - BITS_63
  }

  lemma DecodeSecondWord(sem: nat, kind: nat, dst: nat, src: nat, off: nat, snd: nat)
    requires kind < BITS_3 && dst < BITS_9 && src < BITS_9 && off < BITS_32
    requires snd == (((sem * BITS_3 + kind) * BITS_9 + dst) * BITS_9 + src) * BITS_32 + off
    ensures snd % BITS_32 == off
    ensures snd / 0x1_0000_0000 % BITS_9 == src
    ensures snd / 0x200_0000_0000 % BITS_9 == dst
    ensures snd / 0x4_0000_0000_0000 % BITS_3 == kind
    ensures snd / 0x20_0000_0000_0000 == sem
  {
    var a1 := sem * BITS_3 + kind;
    var a2 := a1 * BITS_9 + dst;
    var a3 := a2 * BITS_9 + src;
    DivModUnique(0x1_0000_0000, a3, off);
    DivModUnique(0x200_0000_0000, a2, src * BITS_32 + off);
    DivModUnique(0x4_0000_0000_0000, a1, dst * 0x200_0000_0000 + src * BITS_32 + off);
    DivModUnique(0x20_0000_0000_0000, sem,
                 kind * 0x4_0000_0000_0000 + dst * 0x200_0000_0000 + src * BITS_32 + off);
    DivModUnique(BITS_9, a2, src);
    DivModUnique(BITS_9, a1, dst);
    DivModUnique(BITS_3, sem, kind);
  }

  lemma SecondWordBound(m: Fields)
    requires m.kind < BITS_3 && m.dstId < BITS_9 && m.dstOffset < BITS_32 && m.srcId < BITS_9
    requires m.semaphoreId < BITS_10
    ensures (((m.semaphoreId * BITS_3 + m.kind) * BITS_9 + m.dstId) * BITS_9 + m.srcId) * BITS_32 + m.dstOffset
            < BITS_63
  {
  }

  /** The constructor and the bit fields agree on every argument: each field comes back
      reduced to its width, and the reserved bit is clear. */
  lemma EncodeDecode(f: Fields)
    ensures Words(Encode(f)) && Encode(f).snd < BITS_63
    ensures Decode(Encode(f)) == Masked(f)
  {
    var m := Masked(f);
    SecondWordBound(m);
    DivModUnique(BITS_32, m.srcOffset, m.bytes);
    DecodeSecondWord(m.semaphoreId, m.kind, m.dstId, m.srcId, m.dstOffset, Encode(f).snd);
  }

  /** Without its size assertion the constructor yields an undeliverable trigger exactly when
      the low words of offset and size both vanish. */
  lemma UndeliverableIff(f: Fields)
    ensures !Deliverable(Encode(f)) <==> f.srcOffset % BITS_32 == 0 && f.bytes % BITS_32 == 0
  {
    EncodeDecode(f);
  }

  lemma MaskedInRange(f: Fields)
    requires InRange(f)
    ensures Masked(f) == f
  {
  }

  /** In-range fields come back unchanged and the trigger can be told from an empty slot. */
  lemma InRangeDecode(f: Fields)
    requires InRange(f)
    ensures Words(Encode(f)) && Decode(Encode(f)) == f && Deliverable(Encode(f))
  {
    EncodeDecode(f);
    MaskedInRange(f);
    UndeliverableIff(f);
    assert Masked(f).bytes == f.bytes;
  }

  lemma FlipTwice(snd: nat)
    requires snd < WORD
    ensures Flip(snd) < WORD && Flip(Flip(snd)) == snd
  {
  }

  /** Where the fields are: source offset and size in the first word, and from the lowest bit of the
      second the destination offset, the source and destination ids, the type and the semaphore. */
  lemma Layout(f: Fields)
    requires InRange(f)
    ensures Encode(f).fst == f.srcOffset * 0x1_0000_0000 + f.bytes
    ensures Encode(f).snd == f.dstOffset + f.srcId * 0x1_0000_0000 + f.dstId * 0x200_0000_0000
                             + f.kind * 0x4_0000_0000_0000 + f.semaphoreId * 0x20_0000_0000_0000
  {
    MaskedInRange(f);
    assert Masked(f) == f;
    assert Encode(f).snd == (((f.semaphoreId * BITS_3 + f.kind) * BITS_9 + f.dstId) * BITS_9 + f.srcId) * BITS_32
                            + f.dstOffset;
  }

  /** The three bits of the type. */
  lemma KindBits(kind: nat)
    requires kind < BITS_3
    ensures HasData(kind) <==> kind in {1, 3, 5, 7}
    ensures HasFlag(kind) <==> kind in {2, 3, 6, 7}
    ensures HasSync(kind) <==> kind in {4, 5, 6, 7}
  {
  }

  /** A trigger that the consumer can tell from an empty slot. */
  ghost predicate Deliverable(r: Raw) { r.fst != 0 && Flip(r.snd) != 0 }

  predicate HasData(kind: nat) { kind % 2 == 1 }

  predicate HasFlag(kind: nat) { kind / 2 % 2 == 1 }

  predicate HasSync(kind: nat) { kind / 4 % 2 == 1 }
}
