/** Binding buffers to a multicast object: what callers of the range allocator can do to it. A bind
    allocates a range and maps it; only a bind that maps yields a handle, and releasing the handle
    frees the range. */
module MulticastBinding {
  import opened Arith
  import opened RangeAllocator

  /** The range of a new handle, the allocator's error, or a mapping that threw and its range. */
  datatype Binding = Bound(range: Range) | Refused(reason: Outcome) | MapFailed(range: Range)

  /** The mapping of an empty buffer always throws. */
  function BindResult(lists: State, size: nat, maps: bool, g: nat): Binding
    requires g > 0
  {
    var bound := RoundUp(size, g);
    match Lookup(lists, bound)
    case Granted(offset) =>
      if maps && bound > 0 then Bound(Range(offset, bound)) else MapFailed(Range(offset, bound))
    case NothingFree => Refused(NothingFree)
    case CannotMap => Refused(CannotMap)
  }

  /** The lists, the ranges of the live handles, and the ranges of binds whose mapping threw. */
  datatype Bindings = Bindings(lists: State, handles: seq<Range>, leaked: seq<Range>)

  datatype Call = Bind(size: nat, maps: bool) | Unbind(handle: nat)

  function Perform(b: Bindings, call: Call, g: nat): Bindings
    requires g > 0
  {
    match call
    case Bind(size, maps) =>
      var lists := Allocate(b.lists, RoundUp(size, g));
      (match BindResult(b.lists, size, maps, g)
       case Bound(r) => Bindings(lists, b.handles + [r], b.leaked)
       case MapFailed(r) => Bindings(lists, b.handles, b.leaked + [r])
       case Refused(_) => b.(lists := lists))
    case Unbind(i) =>
      if i < |b.handles| then Bindings(Free(b.lists, b.handles[i]), Remove(b.handles, i), b.leaked) else b
  }

  function PerformAll(base: nat, calls: seq<Call>, g: nat): Bindings
    requires g > 0
  {
    if calls == [] then Bindings(Fresh(base), [], [])
    else Perform(PerformAll(base, calls[..|calls| - 1], g), calls[|calls| - 1], g)
  }

  // ---- what every call keeps ----

  /** The allocated ranges are those of the live handles and those that were leaked. */
  ghost predicate Accounted(b: Bindings) {
    multiset(b.lists.held) == multiset(b.handles) + multiset(b.leaked)
  }

  ghost predicate NoEmptyHandle(b: Bindings) {
    forall i :: 0 <= i < |b.handles| ==> b.handles[i].size > 0
  }

  ghost predicate BindingsInv(b: Bindings, base: nat, g: nat)
    requires g > 0
  {
    Inv(b.lists, base) && Aligned(b.lists, g) && Accounted(b) && NoEmptyHandle(b)
  }

  lemma RemoveMultiset(rs: seq<Range>, i: nat)
    requires i < |rs|
    ensures multiset(Remove(rs, i)) == multiset(rs) - multiset{rs[i]}
  {
    assert rs == rs[..i] + ([rs[i]] + rs[i + 1..]);
    assert multiset(rs) == multiset(rs[..i]) + (multiset{rs[i]} + multiset(rs[i + 1..]));
  }

  lemma HandleIsHeld(b: Bindings, i: nat)
    requires Accounted(b) && i < |b.handles|
    ensures b.handles[i] in b.lists.held
  {
    assert b.handles[i] in multiset(b.handles);
    assert b.handles[i] in multiset(b.lists.held);
  }

  lemma UnbindAccounted(b: Bindings, i: nat, g: nat)
    requires g > 0 && Accounted(b) && i < |b.handles|
    ensures Accounted(Perform(b, Unbind(i), g))
  {
    HandleIsHeld(b, i);
    RemoveMultiset(b.handles, i);
    RemoveMultiset(b.lists.held, FindRange(b.lists.held, b.handles[i]));
    LessOne(multiset(b.handles), multiset(b.leaked), b.handles[i]);
  }

  lemma LessOne(a: multiset<Range>, c: multiset<Range>, r: Range)
    requires r in a
    ensures a + c - multiset{r} == (a - multiset{r}) + c
  {
  }

  lemma BindInv(b: Bindings, base: nat, size: nat, maps: bool, g: nat)
    requires g > 0 && BindingsInv(b, base, g)
    ensures BindingsInv(Perform(b, Bind(size, maps), g), base, g)
  {
    var bound := RoundUp(size, g);
    RoundDownBounds((size + g - 1) % WORD, g);
    CanonicalIff(b.lists, base, Alloc(bound));
    AllocatePartition(b.lists, base, bound);
    DoAligned(b.lists, Alloc(bound), g);
    BindAccounted(b, size, maps, g);
  }

  lemma BindAccounted(b: Bindings, size: nat, maps: bool, g: nat)
    requires g > 0 && Accounted(b) && NoEmptyHandle(b)
    ensures var b' := Perform(b, Bind(size, maps), g);
            b'.lists == Allocate(b.lists, RoundUp(size, g)) && Accounted(b') && NoEmptyHandle(b')
  {
  }

  lemma UnbindInv(b: Bindings, base: nat, i: nat, g: nat)
    requires g > 0 && BindingsInv(b, base, g) && i < |b.handles|
    ensures BindingsInv(Perform(b, Unbind(i), g), base, g)
  {
    var r := b.handles[i];
    CanonicalIff(b.lists, base, Release(r));
    FreePartition(b.lists, base, r);
    DoAligned(b.lists, Release(r), g);
    UnbindAccounted(b, i, g);
  }

  lemma FreshInv(base: nat, g: nat)
    requires base > 0 && g > 0
    ensures BindingsInv(PerformAll(base, [], g), base, g)
  {
    RunPartition(base, []);
  }

  /** In every run of calls: allocated and free ranges partition the buffer, the free list is sorted
      and maximally coalesced, and the allocated ranges are those of the handles and the leaked ones. */
  lemma {:induction false} EveryRunKeeps(base: nat, calls: seq<Call>, g: nat)
    requires base > 0 && g > 0
    ensures BindingsInv(PerformAll(base, calls, g), base, g)
    decreases |calls|
  {
    if calls == [] {
      FreshInv(base, g);
    } else {
      var b := PerformAll(base, calls[..|calls| - 1], g);
      EveryRunKeeps(base, calls[..|calls| - 1], g);
      match calls[|calls| - 1]
      case Bind(size, maps) => BindInv(b, base, size, maps, g);
      case Unbind(i) => if i < |b.handles| { UnbindInv(b, base, i, g); }
    }
  }

  // ---- what callers get ----

  /** The free list after a run is the one canonical list of its free bytes. */
  lemma FreeListDetermined(base: nat, calls: seq<Call>, g: nat, rs: seq<Range>)
    requires base > 0 && g > 0
    requires Canonical(rs) && SameBytes(rs, PerformAll(base, calls, g).lists.free)
    ensures PerformAll(base, calls, g).lists.free == rs
  {
    EveryRunKeeps(base, calls, g);
    CanonicalUnique(rs, PerformAll(base, calls, g).lists.free);
  }

  /** A bind is refused exactly when no run of the needed bytes is free, and otherwise gets the lowest
      address at which one is. */
  lemma GrantedIff(base: nat, calls: seq<Call>, g: nat, size: nat, maps: bool)
    requires base > 0 && g > 0
    ensures var lists, need := PerformAll(base, calls, g).lists, Needed(RoundUp(size, g));
            match BindResult(lists, size, maps, g)
            case Refused(_) => forall o: int :: !FreeRun(lists.free, o, need)
            case Bound(r) =>
              FreeRun(lists.free, r.offset, need) && forall o: int :: FreeRun(lists.free, o, need) ==> r.offset <= o
            case MapFailed(r) =>
              FreeRun(lists.free, r.offset, need) && forall o: int :: FreeRun(lists.free, o, need) ==> r.offset <= o
    ensures var lists := PerformAll(base, calls, g).lists;
            BindResult(lists, size, maps, g) == Refused(NothingFree) <==> forall x: int :: Count(lists.free, x) == 0
  {
    EveryRunKeeps(base, calls, g);
    var free := PerformAll(base, calls, g).lists.free;
    GrantedWhenFree(PerformAll(base, calls, g).lists, RoundUp(size, g));
    if free != [] {
      CountPositive(free, 0, free[0].offset);
      assert Count(free, free[0].offset) != 0;
    }
  }

  /** Every offset and every size handed out is a multiple of the granularity. */
  lemma HandlesAligned(base: nat, calls: seq<Call>, g: nat, i: nat)
    requires base > 0 && g > 0 && i < |PerformAll(base, calls, g).handles|
    ensures var r := PerformAll(base, calls, g).handles[i]; r.offset % g == 0 && r.size % g == 0 && r.size > 0
  {
    EveryRunKeeps(base, calls, g);
    HandleIsHeld(PerformAll(base, calls, g), i);
  }

  lemma {:induction false} CountMultiset(a: seq<Range>, b: seq<Range>, x: int)
    requires multiset(a) == multiset(b)
    ensures Count(a, x) == Count(b, x)
    decreases |a|
  {
    if a == [] {
      assert |b| == |multiset(b)| == 0;
    } else {
      assert a[0] in multiset(a) && a[0] in multiset(b);
      var i := FindRange(b, a[0]);
      RemoveMultiset(b, i);
      RemoveMultiset(a, 0);
      assert Remove(a, 0) == a[1..];
      CountMultiset(a[1..], Remove(b, i), x);
      CountRemove(b, i, x);
    }
  }

  /** A byte is in at most one range among those of live handles, the leaked and the free ones. */
  lemma HandlesAreDisjoint(base: nat, calls: seq<Call>, g: nat, x: int)
    requires base > 0 && g > 0
    ensures var b := PerformAll(base, calls, g);
            Count(b.handles, x) + Count(b.leaked, x) + Count(b.lists.free, x) == if 0 <= x < base then 1 else 0
  {
    EveryRunKeeps(base, calls, g);
    var b := PerformAll(base, calls, g);
    assert multiset(b.handles + b.leaked) == multiset(b.handles) + multiset(b.leaked);
    CountMultiset(b.lists.held, b.handles + b.leaked, x);
    CountConcat(b.handles, b.leaked, x);
    assert Count(b.lists.free, x) + Count(b.lists.held, x) == if 0 <= x < base then 1 else 0;
  }

  lemma {:induction false} EmptyRangesCount(rs: seq<Range>, x: int)
    requires forall i :: 0 <= i < |rs| ==> rs[i].size == 0
    ensures Count(rs, x) == 0
  {
    if rs != [] { EmptyRangesCount(rs[1..], x); }
  }

  ghost predicate OnlyEmpty(rs: seq<Range>) {
    forall i :: 0 <= i < |rs| ==> rs[i].size == 0
  }

  lemma WholeBufferCount(base: nat, x: int)
    ensures Count([Range(0, base)], x) == if 0 <= x < base then 1 else 0
  {
    assert [Range(0, base)][1..] == [];
  }

  /** With all handles released the single initial range is back if and only if every range left by a
      bind whose mapping threw is empty. */
  lemma RestoredIff(base: nat, calls: seq<Call>, g: nat)
    requires base > 0 && g > 0 && PerformAll(base, calls, g).handles == []
    ensures var b := PerformAll(base, calls, g);
            b.lists.free == [Range(0, base)] <==> OnlyEmpty(b.leaked)
  {
    var b, whole := PerformAll(base, calls, g), [Range(0, base)];
    if OnlyEmpty(b.leaked) {
      forall x: int
        ensures Count(whole, x) >= 1 <==> Count(b.lists.free, x) >= 1
      {
        HandlesAreDisjoint(base, calls, g, x);
        EmptyRangesCount(b.leaked, x);
        WholeBufferCount(base, x);
      }
      FreeListDetermined(base, calls, g, whole);
    } else {
      var i :| 0 <= i < |b.leaked| && b.leaked[i].size > 0;
      var x := b.leaked[i].offset;
      HandlesAreDisjoint(base, calls, g, x);
      CountPositive(b.leaked, i, x);
      WholeBufferCount(base, x);
    }
  }

  /** When no mapping throws for a range that is not empty, nothing is lost. */
  lemma {:induction false} NothingLostWhenMapped(base: nat, calls: seq<Call>, g: nat)
    requires g > 0 && forall k :: 0 <= k < |calls| && calls[k].Bind? ==> calls[k].maps
    ensures OnlyEmpty(PerformAll(base, calls, g).leaked)
    decreases |calls|
  {
    if calls != [] { NothingLostWhenMapped(base, calls[..|calls| - 1], g); }
  }

  /** A bind that maps adds one handle, and exactly its bytes leave the free ones. */
  lemma BindTakes(base: nat, calls: seq<Call>, g: nat, size: nat, maps: bool, x: int)
    requires base > 0 && g > 0
    requires BindResult(PerformAll(base, calls, g).lists, size, maps, g).Bound?
    ensures var b, r := PerformAll(base, calls, g), BindResult(PerformAll(base, calls, g).lists, size, maps, g).range;
            var b' := Perform(b, Bind(size, maps), g);
            && b'.handles == b.handles + [r] && b'.leaked == b.leaked
            && Count(b'.lists.free, x) == Count(b.lists.free, x) - if Contains(r, x) then 1 else 0
  {
    var lists, bound := PerformAll(base, calls, g).lists, RoundUp(size, g);
    TakeCounts(lists.free, FirstFit(lists.free, bound), bound, x);
  }

  /** An unbind removes that handle and no other, and exactly its bytes join the free ones. */
  lemma UnbindReleases(base: nat, calls: seq<Call>, g: nat, i: nat, x: int)
    requires base > 0 && g > 0 && i < |PerformAll(base, calls, g).handles|
    ensures var b := PerformAll(base, calls, g);
            var b' := Perform(b, Unbind(i), g);
            && |b'.handles| == |b.handles| - 1 && b'.handles == b.handles[..i] + b.handles[i + 1..]
            && b'.leaked == b.leaked
            && Count(b'.lists.free, x) == Count(b.lists.free, x) + if Contains(b.handles[i], x) then 1 else 0
  {
    EveryRunKeeps(base, calls, g);
    var b := PerformAll(base, calls, g);
    HandleIsHeld(b, i);
    GiveBackCounts(b.lists.free, b.handles[i], x);
  }

  /** After any run the callers can release everything: as many unbinds as there are handles. */
  lemma {:induction false} ReleaseAll(base: nat, calls: seq<Call>, g: nat) returns (calls': seq<Call>)
    requires base > 0 && g > 0
    ensures calls <= calls' && |calls'| == |calls| + |PerformAll(base, calls, g).handles|
    ensures forall k :: |calls| <= k < |calls'| ==> calls'[k].Unbind?
    ensures PerformAll(base, calls', g).handles == []
    ensures PerformAll(base, calls', g).leaked == PerformAll(base, calls, g).leaked
    decreases |PerformAll(base, calls, g).handles|
  {
    if PerformAll(base, calls, g).handles == [] {
      calls' := calls;
    } else {
      var next := calls + [Unbind(0)];
      assert next[..|calls|] == calls;
      UnbindReleases(base, calls, g, 0, 0);
      calls' := ReleaseAll(base, next, g);
    }
  }

  /** Releasing everything after any run restores the single initial range if and only if every range
      left by a bind whose mapping threw is empty. */
  lemma ReleasingRestoresIff(base: nat, calls: seq<Call>, g: nat) returns (calls': seq<Call>)
    requires base > 0 && g > 0
    ensures calls <= calls' && forall k :: |calls| <= k < |calls'| ==> calls'[k].Unbind?
    ensures PerformAll(base, calls', g).handles == []
    ensures PerformAll(base, calls', g).lists.free == [Range(0, base)] <==>
            OnlyEmpty(PerformAll(base, calls, g).leaked)
  {
    calls' := ReleaseAll(base, calls, g);
    RestoredIff(base, calls', g);
  }

  /** One bind of one byte whose mapping throws: half the buffer stays allocated without a handle. */
  lemma LeakExample(g: nat, calls: seq<Call>)
    requires g == 4 && calls == [Bind(1, false)]
    ensures PerformAll(8, calls, g) == Bindings(State([Range(4, 4)], [Range(0, 4)]), [], [Range(0, 4)])
    ensures BindResult(PerformAll(8, calls, g).lists, 8, true, g) == Refused(CannotMap)
  {
    assert calls[..0] == [];
    assert RoundUp(1, g) == 4 && RoundUp(8, g) == 8;
    assert PerformAll(8, calls, g) == Perform(PerformAll(8, [], g), Bind(1, false), g);
  }

  // ---- the connection object ----

  class NvlsConnection {
    var freeRanges: seq<Range>
    var allocatedRanges: seq<Range>
    const minGranularity: nat

    function Contents(): State
      reads this
    {
      State(freeRanges, allocatedRanges)
    }

    constructor (base: nat, granularity: nat)
      ensures Contents() == Fresh(base) && minGranularity == granularity
    {
      freeRanges, allocatedRanges, minGranularity := [Range(0, base)], [], granularity;
    }

    method AllocateRange(size: nat) returns (r: Outcome)
      modifies this
      ensures r == Lookup(old(Contents()), size)
      ensures Contents() == Allocate(old(Contents()), size)
    {
      if freeRanges == [] {
        return NothingFree;
      }
      var it := 0;
      while it < |freeRanges| && freeRanges[it].size < size
        invariant it <= FirstFit(freeRanges, size)
      {
        it := it + 1;
      }
      if it == |freeRanges| {
        return CannotMap;
      }
      var range := freeRanges[it];
      if range.size == size {
        freeRanges := freeRanges[..it] + freeRanges[it + 1..];
      } else {
        freeRanges := freeRanges[it := Range(range.offset + size, range.size - size)];
      }
      allocatedRanges := allocatedRanges + [Range(range.offset, size)];
      return Granted(range.offset);
    }

    /** Returns whether the range was allocated; if not, nothing changes. */
    method FreeRange(offset: nat, size: nat) returns (known: bool)
      modifies this
      ensures known == (Range(offset, size) in old(allocatedRanges))
      ensures Contents() == Free(old(Contents()), Range(offset, size))
    {
      var r, it := Range(offset, size), 0;
      while it < |allocatedRanges| && allocatedRanges[it] != r
        invariant it <= FindRange(allocatedRanges, r)
      {
        it := it + 1;
      }
      if it == |allocatedRanges| {
        return false;
      }
      allocatedRanges := allocatedRanges[..it] + allocatedRanges[it + 1..];
      Insert(r);
      return true;
    }

    method FindReaching(offset: nat) returns (it: nat)
      ensures it == FirstReaching(freeRanges, offset)
    {
      it := 0;
      while it < |freeRanges| && End(freeRanges[it]) < offset
        invariant it <= FirstReaching(freeRanges, offset)
      {
        it := it + 1;
      }
    }

    /** The second half of a free: merge the range with its free neighbours or insert it. */
    method Insert(r: Range)
      modifies this`freeRanges
      ensures freeRanges == GiveBack(old(freeRanges), r)
    {
      var it := FindReaching(r.offset);
      if it == |freeRanges| {
        freeRanges := freeRanges + [r];
      } else if End(freeRanges[it]) == r.offset {
        freeRanges := freeRanges[it := Range(freeRanges[it].offset, freeRanges[it].size + r.size)];
        if it + 1 < |freeRanges| && End(freeRanges[it]) == freeRanges[it + 1].offset {
          var merged := Range(freeRanges[it].offset, freeRanges[it].size + freeRanges[it + 1].size);
          assert freeRanges[..it] == old(freeRanges)[..it] && freeRanges[it + 2..] == old(freeRanges)[it + 2..];
          freeRanges := freeRanges[..it] + [merged] + freeRanges[it + 2..];
        }
      } else if freeRanges[it].offset == r.offset + r.size {
        freeRanges := freeRanges[it := Range(freeRanges[it].offset - r.size, freeRanges[it].size + r.size)];
      } else {
        freeRanges := freeRanges[..it] + [r] + freeRanges[it..];
      }
    }

    /** Binding allocates the rounded-up size and maps it; `maps` tells whether the driver would map a
        range that is not empty. The handle returned frees that same range when it is released; a
        mapping that throws leaves the range allocated. */
    method BindMemory(size: nat, maps: bool) returns (r: Binding)
      requires minGranularity > 0
      modifies this
      ensures r == BindResult(old(Contents()), size, maps, minGranularity)
      ensures Contents() == Allocate(old(Contents()), RoundUp(size, minGranularity))
    {
      QuotientTimesDivisor((size + minGranularity - 1) % WORD, minGranularity);
      var bound := (size + minGranularity - 1) % WORD / minGranularity * minGranularity;
      var granted := AllocateRange(bound);
      match granted
      case Granted(offset) =>
        if bound == 0 || !maps {
          return MapFailed(Range(offset, bound));
        }
        return Bound(Range(offset, bound));
      case _ => return Refused(granted);
    }
  }
}
