/** The multicast range allocator: first fit over a sorted free list, with coalescing on free. */
module RangeAllocator {

  import opened Arith

  datatype Range = Range(offset: nat, size: nat)

  function End(r: Range): nat { r.offset + r.size }

  ghost predicate Contains(r: Range, x: int) { r.offset <= x < End(r) }

  /** How many of the ranges contain byte `x`. */
  ghost function Count(rs: seq<Range>, x: int): nat {
    if rs == [] then 0 else (if Contains(rs[0], x) then 1 else 0) + Count(rs[1..], x)
  }

  // ---- the list operations ----

  /** The first free range that is large enough, or the length of the list. */
  function FirstFit(free: seq<Range>, size: nat): (i: nat)
    ensures i <= |free|
    ensures i < |free| ==> free[i].size >= size
    ensures forall j :: 0 <= j < i ==> free[j].size < size
  {
    if free == [] || free[0].size >= size then 0 else 1 + FirstFit(free[1..], size)
  }

  /** The free list after taking `size` bytes from the front of range `i`. */
  function Take(free: seq<Range>, i: nat, size: nat): seq<Range>
    requires i < |free| && free[i].size >= size
  {
    if free[i].size == size then free[..i] + free[i + 1..]
    else free[i := Range(free[i].offset + size, free[i].size - size)]
  }

  /** The first free range that ends at or after `offset`, or the length of the list. */
  function FirstReaching(free: seq<Range>, offset: nat): (i: nat)
    ensures i <= |free|
    ensures i < |free| ==> End(free[i]) >= offset
    ensures forall j :: 0 <= j < i ==> End(free[j]) < offset
  {
    if free == [] || End(free[0]) >= offset then 0 else 1 + FirstReaching(free[1..], offset)
  }

  /** The free list after giving back `r`: merged with its neighbours, or inserted in order. */
  function GiveBack(free: seq<Range>, r: Range): seq<Range> {
    var i := FirstReaching(free, r.offset);
    if i == |free| then free + [r]
    else if End(free[i]) == r.offset then
      var merged := Range(free[i].offset, free[i].size + r.size);
      if i + 1 < |free| && End(merged) == free[i + 1].offset
      then free[..i] + [Range(merged.offset, merged.size + free[i + 1].size)] + free[i + 2..]
      else free[i := merged]
    else if free[i].offset == End(r) then free[i := Range(r.offset, free[i].size + r.size)]
    else free[..i] + [r] + free[i..]
  }

  /** The first allocated range equal to `r`, or the length of the list. */
  function FindRange(rs: seq<Range>, r: Range): (i: nat)
    ensures i <= |rs|
    ensures i < |rs| ==> rs[i] == r
    ensures forall j :: 0 <= j < i ==> rs[j] != r
  {
    if rs == [] || rs[0] == r then 0 else 1 + FindRange(rs[1..], r)
  }

  function Remove(rs: seq<Range>, i: nat): seq<Range>
    requires i < |rs|
  {
    rs[..i] + rs[i + 1..]
  }

  // ---- counting ----

  lemma {:induction false} CountConcat(a: seq<Range>, b: seq<Range>, x: int)
    ensures Count(a + b, x) == Count(a, x) + Count(b, x)
  {
    if a == [] {
      assert a + b == b;
    } else {
      CountConcat(a[1..], b, x);
      assert (a + b)[1..] == a[1..] + b;
    }
  }

  lemma CountSplit(rs: seq<Range>, i: nat, x: int)
    requires i < |rs|
    ensures Count(rs, x) == Count(rs[..i], x) + (if Contains(rs[i], x) then 1 else 0) + Count(rs[i + 1..], x)
  {
    assert rs == rs[..i] + ([rs[i]] + rs[i + 1..]);
    CountConcat(rs[..i], [rs[i]] + rs[i + 1..], x);
    assert ([rs[i]] + rs[i + 1..])[1..] == rs[i + 1..];
  }

  lemma CountUpdate(rs: seq<Range>, i: nat, r: Range, x: int)
    requires i < |rs|
    ensures Count(rs[i := r], x) ==
            Count(rs, x) - (if Contains(rs[i], x) then 1 else 0) + (if Contains(r, x) then 1 else 0)
  {
    CountSplit(rs, i, x);
    CountSplit(rs[i := r], i, x);
    assert rs[i := r][..i] == rs[..i] && rs[i := r][i + 1..] == rs[i + 1..];
  }

  lemma CountRemove(rs: seq<Range>, i: nat, x: int)
    requires i < |rs|
    ensures Count(Remove(rs, i), x) == Count(rs, x) - if Contains(rs[i], x) then 1 else 0
  {
    CountSplit(rs, i, x);
    CountConcat(rs[..i], rs[i + 1..], x);
  }

  lemma CountInsert(rs: seq<Range>, i: nat, r: Range, x: int)
    requires i <= |rs|
    ensures Count(rs[..i] + [r] + rs[i..], x) == Count(rs, x) + if Contains(r, x) then 1 else 0
  {
    assert rs[..i] + rs[i..] == rs;
    CountConcat(rs[..i], rs[i..], x);
    CountConcat(rs[..i] + [r], rs[i..], x);
    CountConcat(rs[..i], [r], x);
    assert [r][1..] == [];
  }

  lemma CountPositive(rs: seq<Range>, i: nat, x: int)
    requires i < |rs| && Contains(rs[i], x)
    ensures Count(rs, x) >= 1
  {
    CountSplit(rs, i, x);
  }

  lemma {:induction false} CountFinds(rs: seq<Range>, x: int) returns (i: nat)
    requires Count(rs, x) >= 1
    ensures i < |rs| && Contains(rs[i], x)
  {
    if Contains(rs[0], x) {
      i := 0;
    } else {
      i := CountFinds(rs[1..], x);
      i := i + 1;
    }
  }

  /** Taking bytes removes exactly those bytes from the free list. */
  lemma TakeCounts(free: seq<Range>, i: nat, size: nat, x: int)
    requires i < |free| && free[i].size >= size
    ensures Count(Take(free, i, size), x) ==
            Count(free, x) - if Contains(Range(free[i].offset, size), x) then 1 else 0
  {
    if free[i].size == size {
      CountRemove(free, i, x);
    } else {
      CountUpdate(free, i, Range(free[i].offset + size, free[i].size - size), x);
    }
  }

  lemma MergeBothCounts(free: seq<Range>, i: nat, r: Range, x: int)
    requires i + 1 < |free| && End(free[i]) == r.offset && End(r) == free[i + 1].offset
    ensures var both := Range(free[i].offset, free[i].size + r.size + free[i + 1].size);
            Count(free[..i] + [both] + free[i + 2..], x) == Count(free, x) + if Contains(r, x) then 1 else 0
  {
    var both := Range(free[i].offset, free[i].size + r.size + free[i + 1].size);
    CountUpdate(free, i, both, x);
    CountRemove(free[i := both], i + 1, x);
    assert Remove(free[i := both], i + 1) == free[..i] + [both] + free[i + 2..];
  }

  /** Giving a range back adds exactly its bytes, however it is merged. */
  lemma GiveBackCounts(free: seq<Range>, r: Range, x: int)
    ensures Count(GiveBack(free, r), x) == Count(free, x) + if Contains(r, x) then 1 else 0
  {
    var i := FirstReaching(free, r.offset);
    if i == |free| {
      CountInsert(free, i, r, x);
      assert free[..i] + [r] + free[i..] == free + [r];
    } else if End(free[i]) == r.offset {
      if i + 1 < |free| && End(r) == free[i + 1].offset {
        MergeBothCounts(free, i, r, x);
      } else {
        CountUpdate(free, i, Range(free[i].offset, free[i].size + r.size), x);
      }
    } else if free[i].offset == End(r) {
      CountUpdate(free, i, Range(r.offset, free[i].size + r.size), x);
    } else {
      CountInsert(free, i, r, x);
    }
  }

  // ---- canonical lists ----

  /** Sorted, nonempty ranges with a gap between any two. */
  ghost predicate Canonical(free: seq<Range>) {
    && (forall i :: 0 <= i < |free| ==> free[i].size > 0)
    && forall i, j :: 0 <= i < j < |free| ==> End(free[i]) < free[j].offset
  }

  lemma CanonicalTake(free: seq<Range>, i: nat, size: nat)
    requires Canonical(free) && i < |free| && free[i].size >= size
    ensures Canonical(Take(free, i, size))
  {
  }

  /** None of the bytes of `r` is free. */
  ghost predicate NotFree(free: seq<Range>, r: Range) {
    forall x :: Contains(r, x) ==> Count(free, x) == 0
  }

  lemma Apart(free: seq<Range>, r: Range, i: nat)
    requires NotFree(free, r) && r.size > 0 && i < |free| && free[i].size > 0
    ensures End(free[i]) <= r.offset || End(r) <= free[i].offset
  {
    if r.offset < End(free[i]) && free[i].offset < End(r) {
      var x := if r.offset < free[i].offset then free[i].offset else r.offset;
      CountPositive(free, i, x);
      assert Contains(r, x);
    }
  }

  /** Replacing a stretch of a canonical list by one range that keeps its distance. */
  lemma CanonicalSplice(free: seq<Range>, i: nat, j: nat, m: Range)
    requires Canonical(free) && i <= j <= |free| && m.size > 0
    requires i > 0 ==> End(free[i - 1]) < m.offset
    requires j < |free| ==> End(m) < free[j].offset
    ensures Canonical(free[..i] + [m] + free[j..])
  {
    var rs := free[..i] + [m] + free[j..];
    forall a, b | 0 <= a < b < |rs|
      ensures End(rs[a]) < rs[b].offset
    {
      var a', b' := if a < i then a else a - i - 1 + j, if b < i then b else b - i - 1 + j;
      if a < i && b == i {
        assert a < i - 1 ==> End(free[a]) < free[i - 1].offset;
      } else if a == i {
        assert j < b' ==> End(free[j]) < free[b'].offset;
      }
    }
  }

  lemma ReplaceOne(free: seq<Range>, i: nat, m: Range)
    requires i < |free|
    ensures free[..i] + [m] + free[i + 1..] == free[i := m]
  {
  }

  /** Giving back replaces none, one or two free ranges by one. */
  lemma GiveBackShape(free: seq<Range>, r: Range) returns (i: nat, j: nat, m: Range)
    ensures i == FirstReaching(free, r.offset) && i <= j <= |free| && j <= i + 2
    ensures GiveBack(free, r) == free[..i] + [m] + free[j..]
    ensures j == i ==> m == r && (i < |free| ==> End(free[i]) != r.offset && free[i].offset != End(r))
    ensures j == i + 1 ==>
              || (&& End(free[i]) == r.offset && m == Range(free[i].offset, free[i].size + r.size)
                  && (j < |free| ==> End(m) != free[j].offset))
              || (&& End(free[i]) != r.offset && free[i].offset == End(r)
                  && m == Range(r.offset, free[i].size + r.size))
    ensures j == i + 2 ==> && End(free[i]) == r.offset && End(r) == free[i + 1].offset
                           && m == Range(free[i].offset, free[i].size + r.size + free[i + 1].size)
  {
    i := FirstReaching(free, r.offset);
    if i == |free| {
      j, m := i, r;
      assert free[..i] + [r] + free[i..] == free + [r];
    } else if End(free[i]) == r.offset {
      if i + 1 < |free| && End(r) == free[i + 1].offset {
        j, m := i + 2, Range(free[i].offset, free[i].size + r.size + free[i + 1].size);
      } else {
        j, m := i + 1, Range(free[i].offset, free[i].size + r.size);
        ReplaceOne(free, i, m);
      }
    } else if free[i].offset == End(r) {
      j, m := i + 1, Range(r.offset, free[i].size + r.size);
      ReplaceOne(free, i, m);
    } else {
      j, m := i, r;
    }
  }

  /** Giving back a range that was not free keeps the list sorted and maximally coalesced. */
  lemma CanonicalGiveBack(free: seq<Range>, r: Range)
    requires Canonical(free) && r.size > 0 && NotFree(free, r)
    ensures Canonical(GiveBack(free, r))
  {
    var i, j, m := GiveBackShape(free, r);
    if i < |free| { Apart(free, r, i); }
    if i + 1 < |free| { Apart(free, r, i + 1); }
    CanonicalSplice(free, i, j, m);
  }

  // ---- a canonical list is determined by its bytes ----

  ghost predicate SameBytes(a: seq<Range>, b: seq<Range>) {
    forall x: int :: Count(a, x) >= 1 <==> Count(b, x) >= 1
  }

  lemma {:induction false} NoneBelow(rs: seq<Range>, x: int)
    requires forall i :: 0 <= i < |rs| ==> x < rs[i].offset
    ensures Count(rs, x) == 0
  {
    if rs != [] { NoneBelow(rs[1..], x); }
  }

  lemma CanonicalTail(rs: seq<Range>, x: int)
    requires Canonical(rs) && rs != [] && x <= End(rs[0])
    ensures Canonical(rs[1..]) && Count(rs[1..], x) == 0
  {
    NoneBelow(rs[1..], x);
  }

  /** The first range of `a` starts and ends no later than that of `b` demands. */
  lemma FirstRangeBound(a: seq<Range>, b: seq<Range>)
    requires Canonical(a) && Canonical(b) && SameBytes(a, b) && a != []
    ensures b != [] && b[0].offset <= a[0].offset
    ensures b[0].offset == a[0].offset ==> End(b[0]) <= End(a[0])
  {
    CountPositive(a, 0, a[0].offset);
    var i := CountFinds(b, a[0].offset);
    if b[0].offset == a[0].offset && End(a[0]) < End(b[0]) {
      CountPositive(b, 0, End(a[0]));
      CanonicalTail(a, End(a[0]));
    }
  }

  lemma TailSameBytes(a: seq<Range>, b: seq<Range>)
    requires Canonical(a) && Canonical(b) && SameBytes(a, b) && a != [] && b != [] && a[0] == b[0]
    ensures SameBytes(a[1..], b[1..])
  {
    forall x: int
      ensures Count(a[1..], x) >= 1 <==> Count(b[1..], x) >= 1
    {
      if Contains(a[0], x) {
        CanonicalTail(a, x);
        CanonicalTail(b, x);
      } else {
        assert Count(a, x) == Count(a[1..], x) && Count(b, x) == Count(b[1..], x);
      }
    }
  }

  lemma FirstRangeSame(a: seq<Range>, b: seq<Range>)
    requires Canonical(a) && Canonical(b) && SameBytes(a, b)
    ensures (a == []) == (b == []) && (a != [] ==> a[0] == b[0])
  {
    if a != [] { FirstRangeBound(a, b); }
    if b != [] { FirstRangeBound(b, a); }
  }

  lemma HeadAndTail(a: seq<Range>, b: seq<Range>)
    requires a != [] && b != [] && a[0] == b[0] && a[1..] == b[1..]
    ensures a == b
  {
    assert a == [a[0]] + a[1..] && b == [b[0]] + b[1..];
  }

  lemma {:induction false} CanonicalUnique(a: seq<Range>, b: seq<Range>)
    requires Canonical(a) && Canonical(b) && SameBytes(a, b)
    ensures a == b
    decreases |a|
  {
    FirstRangeSame(a, b);
    if a != [] {
      TailSameBytes(a, b);
      CanonicalUnique(a[1..], b[1..]);
      HeadAndTail(a, b);
    }
  }

  // ---- runs of the allocator ----

  datatype State = State(free: seq<Range>, held: seq<Range>)

  /** A grant, or one of the two usage errors: nothing is free, or no free range is large enough. */
  datatype Outcome = Granted(offset: nat) | NothingFree | CannotMap

  function Lookup(s: State, size: nat): Outcome {
    var i := FirstFit(s.free, size);
    if s.free == [] then NothingFree
    else if i < |s.free| then Granted(s.free[i].offset)
    else CannotMap
  }

  function Allocate(s: State, size: nat): State {
    var i := FirstFit(s.free, size);
    if i < |s.free|
    then State(Take(s.free, i, size), s.held + [Range(s.free[i].offset, size)])
    else s
  }

  /** Freeing a range that is not allocated is reported and ignored. */
  function Free(s: State, r: Range): State {
    var i := FindRange(s.held, r);
    if i < |s.held| then State(GiveBack(s.free, r), Remove(s.held, i)) else s
  }

  datatype Op = Alloc(size: nat) | Release(range: Range)

  function Do(s: State, op: Op): State {
    match op
    case Alloc(size) => Allocate(s, size)
    case Release(r) => Free(s, r)
  }

  function DoAll(s: State, ops: seq<Op>): State {
    if ops == [] then s else Do(DoAll(s, ops[..|ops| - 1]), ops[|ops| - 1])
  }

  function Fresh(base: nat): State { State([Range(0, base)], []) }

  /** Every byte of the buffer is in exactly one range, free or allocated, and no other byte is. */
  ghost predicate Partition(s: State, base: nat) {
    forall x: int :: Count(s.free, x) + Count(s.held, x) == if 0 <= x < base then 1 else 0
  }

  ghost predicate Inv(s: State, base: nat) {
    Canonical(s.free) && Partition(s, base)
  }

  /** Byte position `o` is where some free range starts or ends. */
  predicate Boundary(free: seq<Range>, o: nat) {
    exists i :: 0 <= i < |free| && (free[i].offset == o || End(free[i]) == o)
  }

  /** Freeing an empty allocation that touches no free range. */
  predicate StrayEmpty(s: State, op: Op) {
    op.Release? && op.range in s.held && op.range.size == 0 && !Boundary(s.free, op.range.offset)
  }

  lemma AllocatePartition(s: State, base: nat, size: nat)
    requires Partition(s, base)
    ensures Partition(Allocate(s, size), base)
  {
    var i := FirstFit(s.free, size);
    if i < |s.free| {
      var s', r := Allocate(s, size), Range(s.free[i].offset, size);
      forall x: int
        ensures Count(s'.free, x) + Count(s'.held, x) == if 0 <= x < base then 1 else 0
      {
        TakeCounts(s.free, i, size, x);
        CountConcat(s.held, [r], x);
        assert [r][1..] == [];
        assert Count(s.free, x) + Count(s.held, x) == if 0 <= x < base then 1 else 0;
      }
    }
  }

  lemma FreePartition(s: State, base: nat, r: Range)
    requires Partition(s, base)
    ensures Partition(Free(s, r), base)
  {
    var i := FindRange(s.held, r);
    if i < |s.held| {
      var s' := Free(s, r);
      forall x: int
        ensures Count(s'.free, x) + Count(s'.held, x) == if 0 <= x < base then 1 else 0
      {
        GiveBackCounts(s.free, r, x);
        CountRemove(s.held, i, x);
        assert Count(s.free, x) + Count(s.held, x) == if 0 <= x < base then 1 else 0;
      }
    }
  }

  lemma AllocatedNotFree(s: State, base: nat, i: nat)
    requires Partition(s, base) && i < |s.held|
    ensures NotFree(s.free, s.held[i])
  {
    forall x | Contains(s.held[i], x)
      ensures Count(s.free, x) == 0
    {
      CountPositive(s.held, i, x);
      assert Count(s.free, x) + Count(s.held, x) <= 1;
    }
  }

  /** An empty range given back leaves no empty range behind exactly when it touches a free range. */
  lemma GiveBackEmptyIff(free: seq<Range>, o: nat)
    requires Canonical(free)
    ensures Canonical(GiveBack(free, Range(o, 0))) <==> Boundary(free, o)
  {
    var r := Range(o, 0);
    var i, j, m := GiveBackShape(free, r);
    if j == i {
      assert GiveBack(free, r)[i].size == 0;
      assert i + 1 < |free| ==> End(free[i]) < free[i + 1].offset;
    } else if j == i + 1 {
      assert m == free[i];
      assert GiveBack(free, r) == free;
    }
  }

  /** One operation keeps the free list sorted and maximally coalesced, unless it frees an empty
      allocation away from every free range; then it does not. */
  lemma CanonicalIff(s: State, base: nat, op: Op)
    requires Inv(s, base)
    ensures Canonical(Do(s, op).free) <==> !StrayEmpty(s, op)
  {
    match op
    case Alloc(size) =>
      if FirstFit(s.free, size) < |s.free| { CanonicalTake(s.free, FirstFit(s.free, size), size); }
    case Release(r) =>
      var i := FindRange(s.held, r);
      if i < |s.held| {
        AllocatedNotFree(s, base, i);
        if r.size == 0 { GiveBackEmptyIff(s.free, r.offset); } else { CanonicalGiveBack(s.free, r); }
      }
  }

  /** Whatever the sizes, after any run the allocated and the free ranges partition the buffer. */
  lemma {:induction false} RunPartition(base: nat, ops: seq<Op>)
    ensures Partition(DoAll(Fresh(base), ops), base)
    decreases |ops|
  {
    if ops == [] {
      var s := Fresh(base);
      forall x: int
        ensures Count(s.free, x) + Count(s.held, x) == if 0 <= x < base then 1 else 0
      {
        assert s.free[1..] == [];
      }
    } else {
      var s := DoAll(Fresh(base), ops[..|ops| - 1]);
      RunPartition(base, ops[..|ops| - 1]);
      match ops[|ops| - 1]
      case Alloc(size) => AllocatePartition(s, base, size);
      case Release(r) => FreePartition(s, base, r);
    }
  }

  /** No step of the run frees an empty allocation away from every free range. */
  ghost predicate NoStrayEmpty(base: nat, ops: seq<Op>) {
    ops == [] ||
    (var before := ops[..|ops| - 1];
     NoStrayEmpty(base, before) && !StrayEmpty(DoAll(Fresh(base), before), ops[|ops| - 1]))
  }

  /** The free list is sorted and maximally coalesced all along the run. */
  ghost predicate AlwaysCanonical(base: nat, ops: seq<Op>) {
    Canonical(DoAll(Fresh(base), ops).free) && (ops != [] ==> AlwaysCanonical(base, ops[..|ops| - 1]))
  }

  /** The two list functions by themselves keep the free list sorted and maximally coalesced all along
      a run exactly when no step frees a stray empty allocation. */
  lemma {:induction false} RunCanonicalIff(base: nat, ops: seq<Op>)
    requires base > 0
    ensures AlwaysCanonical(base, ops) <==> NoStrayEmpty(base, ops)
    decreases |ops|
  {
    if ops != [] {
      var before := ops[..|ops| - 1];
      RunCanonicalIff(base, before);
      RunPartition(base, before);
      if AlwaysCanonical(base, before) {
        CanonicalIff(DoAll(Fresh(base), before), base, ops[|ops| - 1]);
      }
    }
  }

  /** On the lists such a run exists: an empty allocation, one of four bytes, then the empty one is
      freed. */
  lemma StrayEmptyExample()
    ensures var ops := [Alloc(0), Alloc(4), Release(Range(0, 0))];
            DoAll(Fresh(8), ops).free == [Range(0, 0), Range(4, 4)]
  {
    var ops := [Alloc(0), Alloc(4), Release(Range(0, 0))];
    assert ops[..2] == [Alloc(0), Alloc(4)] && ops[..2][..1] == [Alloc(0)] && ops[..2][..1][..0] == [];
    assert DoAll(Fresh(8), ops[..2][..1]) == State([Range(0, 8)], [Range(0, 0)]);
    assert DoAll(Fresh(8), ops[..2]) == State([Range(4, 4)], [Range(0, 0), Range(0, 4)]);
    assert FindRange([Range(0, 0), Range(0, 4)], Range(0, 0)) == 0;
  }

  /** In particular a run of positive-size allocations never frees a stray empty one. */
  lemma {:induction false} PositiveSizesAreSafe(base: nat, ops: seq<Op>)
    requires forall i :: 0 <= i < |ops| && ops[i].Alloc? ==> ops[i].size > 0
    ensures NoStrayEmpty(base, ops)
    ensures forall r :: r in DoAll(Fresh(base), ops).held ==> r.size > 0
    decreases |ops|
  {
    if ops != [] { PositiveSizesAreSafe(base, ops[..|ops| - 1]); }
  }

  // ---- when a request is granted ----

  /** `size` consecutive free bytes start at `o`. */
  ghost predicate FreeRun(free: seq<Range>, o: int, size: nat) {
    forall x :: o <= x < o + size ==> Count(free, x) >= 1
  }

  /** In a canonical list, consecutive free bytes lie in one range. */
  lemma RunInOneRange(free: seq<Range>, o: int, size: nat) returns (i: nat)
    requires Canonical(free) && size > 0 && FreeRun(free, o, size)
    ensures i < |free| && free[i].offset <= o && o + size <= End(free[i])
  {
    i := CountFinds(free, o);
    if End(free[i]) < o + size {
      var j := CountFinds(free, End(free[i]));
    }
  }

  lemma RangeIsFree(free: seq<Range>, i: nat, size: nat)
    requires i < |free| && size <= free[i].size
    ensures FreeRun(free, free[i].offset, size)
  {
    forall x | free[i].offset <= x < free[i].offset + size
      ensures Count(free, x) >= 1
    {
      CountPositive(free, i, x);
    }
  }

  lemma FirstFitIsLowest(free: seq<Range>, o: int, size: nat)
    requires Canonical(free) && size > 0 && FreeRun(free, o, size)
    ensures FirstFit(free, size) < |free| && free[FirstFit(free, size)].offset <= o
  {
    var i := FirstFit(free, size);
    var j := RunInOneRange(free, o, size);
    assert i < j ==> End(free[i]) < free[j].offset;
  }

  /** An empty request still needs a free byte to start at. */
  function Needed(size: nat): nat { if size == 0 then 1 else size }

  lemma EmptyFitsFirst(free: seq<Range>, size: nat)
    requires Canonical(free)
    ensures FirstFit(free, size) == FirstFit(free, Needed(size))
  {
  }

  lemma GrantedWhenFree(s: State, size: nat)
    requires Canonical(s.free)
    ensures match Lookup(s, size)
            case Granted(offset) =>
              && FreeRun(s.free, offset, Needed(size))
              && forall o: int :: FreeRun(s.free, o, Needed(size)) ==> offset <= o
            case _ => forall o: int :: !FreeRun(s.free, o, Needed(size))
  {
    var i, need := FirstFit(s.free, size), Needed(size);
    EmptyFitsFirst(s.free, size);
    if i < |s.free| { RangeIsFree(s.free, i, need); }
    forall o: int | FreeRun(s.free, o, need)
      ensures i < |s.free| && s.free[i].offset <= o
    {
      FirstFitIsLowest(s.free, o, need);
    }
  }

  // ---- alignment ----

  function RoundDown(x: nat, g: nat): nat
    requires g > 0
  {
    QuotientTimesDivisor(x, g); x / g * g
  }

  /** The buffer size rounded up to the granularity, in 64-bit arithmetic. */
  function RoundUp(size: nat, g: nat): nat
    requires g > 0
  {
    RoundDown((size + g - 1) % WORD, g)
  }

  /** Rounding gives the smallest sufficient multiple exactly when the addition does not wrap; when
      it wraps, the result is too small. */
  lemma RoundUpIff(size: nat, g: nat)
    requires 0 < g < WORD && size < WORD
    ensures RoundUp(size, g) % g == 0
    ensures size <= RoundUp(size, g) < size + g <==> size + g - 1 < WORD
    ensures size <= RoundUp(size, g) <==> size + g - 1 < WORD
  {
    var sum := size + g - 1;
    Wrapped(sum);
    RoundDownBounds(sum % WORD, g);
  }

  /** It wraps for the largest size: nothing is allocated for it. */
  lemma RoundUpWrapsExample(size: nat, g: nat)
    requires size == WORD - 1 && g == 2
    ensures RoundUp(size, g) == 0
  {
  }

  lemma Wrapped(x: nat)
    requires x < 2 * WORD
    ensures x % WORD == if x < WORD then x else x - WORD
  {
  }

  lemma RoundDownBounds(x: nat, g: nat)
    requires g > 0
    ensures RoundDown(x, g) <= x < RoundDown(x, g) + g && RoundDown(x, g) % g == 0
  {
    QuotientTimesDivisor(x, g);
  }

  ghost predicate AlignedStarts(rs: seq<Range>, g: nat)
    requires g > 0
  {
    forall i :: 0 <= i < |rs| ==> rs[i].offset % g == 0
  }

  ghost predicate AlignedSizes(rs: seq<Range>, g: nat)
    requires g > 0
  {
    forall i :: 0 <= i < |rs| ==> rs[i].size % g == 0
  }

  ghost predicate Aligned(s: State, g: nat)
    requires g > 0
  {
    AlignedStarts(s.free, g) && AlignedStarts(s.held, g) && AlignedSizes(s.held, g)
  }

  lemma SumAligned(a: nat, b: nat, g: nat)
    requires g > 0 && a % g == 0 && b % g == 0
    ensures (a + b) % g == 0
  {
    assert a / g * g == a && b / g * g == b;
    assert (a / g + b / g) * g == a + b;
    DivModUnique(g, a / g + b / g, 0);
  }

  lemma AlignedGiveBack(free: seq<Range>, r: Range, g: nat)
    requires g > 0 && AlignedStarts(free, g) && r.offset % g == 0
    ensures AlignedStarts(GiveBack(free, r), g)
  {
    var i, j, m := GiveBackShape(free, r);
    assert m.offset == r.offset || m.offset == free[i].offset;
  }

  lemma DoAligned(s: State, op: Op, g: nat)
    requires g > 0 && Aligned(s, g) && (op.Alloc? ==> op.size % g == 0)
    ensures Aligned(Do(s, op), g)
  {
    match op
    case Alloc(size) =>
      var i := FirstFit(s.free, size);
      if i < |s.free| { SumAligned(s.free[i].offset, size, g); }
    case Release(r) =>
      if FindRange(s.held, r) < |s.held| {
        AlignedGiveBack(s.free, r, g);
      }
  }
}
