/** Collective copy: every thread runs strided loops over the unaligned head, the aligned elements and
    the unaligned tail. Memory is seen as 4-byte words, numbered from the start of each buffer. */
module StridedCopy {

  import opened Arith

  /** Element width in words, the two byte addresses, the byte count and the number of threads;
      `remainder` tells whether the unaligned ends are copied too. */
  datatype Job = Job(width: nat, dst: nat, src: nat, bytes: nat, threads: nat, remainder: bool)

  /** Elements are 4, 8 or 16 bytes; both addresses are misaligned by the same whole number of words. */
  predicate Valid(job: Job) {
    && job.width in {1, 2, 4} && job.threads > 0 && job.bytes < WORD
    && job.dst % 4 == 0 && job.dst % (4 * job.width) == job.src % (4 * job.width)
  }

  /** One word stored: its place in the destination and the word of the source that it comes from. */
  datatype Store = Store(to: nat, from: nat)

  // ---- the sizes ----

  function AlignUp(address: nat, size: nat): nat
    requires size > 0
  {
    QuotientTimesDivisor(address + size - 1, size); (address + size - 1) / size * size
  }

  /** Words before the first aligned element. */
  function Head(address: nat, width: nat): nat
    requires width > 0
  {
    QuotientTimesDivisor(address + 4 * width - 1, 4 * width);
    (AlignUp(address, 4 * width) - address) / 4
  }

  function NumInt(job: Job): nat { job.bytes / 4 }

  function First(job: Job): nat
    requires job.width > 0
  {
    Head(job.dst, job.width)
  }

  /** The words after the head, in 64-bit arithmetic: it wraps when the head is longer than the copy. */
  function Rest(job: Job): nat
    requires job.width > 0
  {
    (NumInt(job) - First(job)) % WORD
  }

  function NumElem(job: Job): nat
    requires job.width > 0
  {
    Rest(job) / job.width
  }

  // ---- the stores of one thread ----

  /** The loop indices of a thread: from `first` in steps of the thread count. */
  function Strided(first: nat, threads: nat, n: nat): seq<nat>
    requires threads > 0
    decreases if first < n then n - first else 0
  {
    if first >= n then [] else [first] + Strided(first + threads, threads, n)
  }

  /** The words of one element, or of any run of `k` words. */
  function Words(to: nat, from: nat, k: nat): seq<Store> {
    if k == 0 then [] else Words(to, from, k - 1) + [Store(to + k - 1, from + k - 1)]
  }

  /** The words taken by `i` elements. */
  function Skip(i: nat, width: nat): nat { if i == 0 then 0 else Skip(i - 1, width) + width }

  lemma {:induction false} SkipIs(i: nat, width: nat)
    ensures Skip(i, width) == i * width
  {
    if i > 0 {
      SkipIs(i - 1, width);
      assert (i - 1) * width + width == i * width;
    }
  }

  /** A part of the copy: `n` elements of `width` words starting at the given words. */
  datatype Part = Part(width: nat, to: nat, from: nat, n: nat)

  function Element(part: Part, i: nat): seq<Store> {
    var skip := Skip(i, part.width);
    Words(part.to + skip, part.from + skip, part.width)
  }

  function Elements(part: Part, indices: seq<nat>): seq<Store> {
    if indices == [] then [] else Element(part, indices[0]) + Elements(part, indices[1..])
  }

  function PartStores(part: Part, thread: nat, threads: nat): seq<Store>
    requires threads > 0
  {
    Elements(part, Strided(thread, threads, part.n))
  }

  function HeadPart(job: Job): Part
    requires job.width > 0
  {
    Part(1, 0, 0, if job.remainder then First(job) else 0)
  }

  /** The aligned elements; the source address is aligned on its own. */
  function BodyPart(job: Job): Part
    requires job.width > 0
  {
    Part(job.width, First(job), Head(job.src, job.width), NumElem(job))
  }

  /** The tail is compiled out for 4-byte elements. */
  function TailPart(job: Job): Part
    requires job.width > 0
  {
    var start := First(job) + NumElem(job) * job.width;
    Part(1, start, start, if job.remainder && job.width > 1 then Rest(job) % job.width else 0)
  }

  /** One thread's stores for three parts one after the other. */
  function PartsStores(a: Part, b: Part, c: Part, thread: nat, threads: nat): seq<Store>
    requires threads > 0
  {
    PartStores(a, thread, threads) + PartStores(b, thread, threads) + PartStores(c, thread, threads)
  }

  function ThreadStores(job: Job, thread: nat): seq<Store>
    requires job.width > 0 && job.threads > 0
  {
    PartsStores(HeadPart(job), BodyPart(job), TailPart(job), thread, job.threads)
  }

  /** How often a store occurs. */
  function Count(stores: seq<Store>, st: Store): nat {
    if stores == [] then 0 else (if stores[0] == st then 1 else 0) + Count(stores[1..], st)
  }

  /** How often the first `n` threads together perform a store. */
  ghost function Times(a: Part, b: Part, c: Part, threads: nat, st: Store, n: nat): nat
    requires threads > 0
  {
    if n == 0 then 0
    else Times(a, b, c, threads, st, n - 1) + Count(PartsStores(a, b, c, n - 1, threads), st)
  }

  /** How often all threads of the copy together perform a store. */
  ghost function TotalTimes(job: Job, st: Store): nat
    requires job.width > 0 && job.threads > 0
  {
    Times(HeadPart(job), BodyPart(job), TailPart(job), job.threads, st, job.threads)
  }

  // ---- counting the stores of a part ----

  function Quotient(x: nat, d: nat): nat
    requires d > 0
  {
    if x < d then 0 else 1 + Quotient(x - d, d)
  }

  function Remainder(x: nat, d: nat): (r: nat)
    requires d > 0
    ensures r < d
  {
    if x < d then x else Remainder(x - d, d)
  }

  /** They are the division and the modulus, defined so that proofs unfold them one step at a time. */
  lemma {:induction false} QuotientAndRemainder(x: nat, d: nat)
    requires d > 0
    ensures Quotient(x, d) == x / d && Remainder(x, d) == x % d
  {
    if x >= d {
      QuotientAndRemainder(x - d, d);
      var q, r := (x - d) / d, (x - d) % d;
      assert q * d + r == x - d;
      assert (q + 1) * d + r == x;
      DivModUnique(d, q + 1, r);
    } else {
      DivModUnique(d, 0, x);
    }
  }

  /** The words of element `i` are those whose distance has quotient `i`. */
  lemma {:induction false} InElement(x: nat, i: nat, width: nat)
    requires width > 0
    ensures i * width <= x < i * width + width <==> Quotient(x, width) == i
  {
    if i == 0 {
    } else if x < width {
      MulStep(0, i, width);
    } else {
      InElement(x - width, i - 1, width);
      assert (i - 1) * width + width == i * width;
    }
  }

  /** The quotient is below `n` exactly inside the first `n` elements. */
  lemma {:induction false} BelowElement(x: nat, n: nat, width: nat)
    requires width > 0
    ensures Quotient(x, width) < n <==> x < n * width
  {
    if n == 0 {
    } else if x >= width {
      BelowElement(x - width, n - 1, width);
      assert (n - 1) * width + width == n * width;
    } else {
      MulStep(0, n, width);
    }
  }

  /** After one index of a thread, its next is one thread count further. */
  lemma {:induction false} StrideGap(i: nat, first: nat, threads: nat)
    requires threads > 0 && first < i && Remainder(i, threads) == Remainder(first, threads)
    ensures first + threads <= i
  {
    if first >= threads { StrideGap(i - threads, first - threads, threads); }
  }

  /** The element of the part that the store falls into. */
  function ElementOf(part: Part, st: Store): nat
    requires part.width > 0 && part.to <= st.to
  {
    Quotient(st.to - part.to, part.width)
  }

  /** The store copies a word of the part from its own place in the source. */
  ghost predicate InLine(part: Part, st: Store) {
    part.to <= st.to && st.to - part.to == st.from - part.from
  }

  ghost predicate Hits(part: Part, st: Store)
    requires part.width > 0
  {
    InLine(part, st) && ElementOf(part, st) < part.n
  }

  ghost function One(b: bool): nat { if b then 1 else 0 }

  lemma {:induction false} CountConcat(a: seq<Store>, b: seq<Store>, st: Store)
    ensures Count(a + b, st) == Count(a, st) + Count(b, st)
  {
    if a == [] {
      assert a + b == b;
    } else {
      CountConcat(a[1..], b, st);
      assert (a + b)[1..] == a[1..] + b;
    }
  }

  lemma CountLast(a: seq<Store>, last: Store, st: Store)
    ensures Count(a + [last], st) == Count(a, st) + if last == st then 1 else 0
  {
    CountConcat(a, [last], st);
  }

  lemma {:induction false} WordsCount(to: nat, from: nat, k: nat, st: Store)
    ensures Count(Words(to, from, k), st) == One(to <= st.to < to + k && st.to - to == st.from - from)
  {
    if k > 0 {
      WordsCount(to, from, k - 1, st);
      CountLast(Words(to, from, k - 1), Store(to + k - 1, from + k - 1), st);
    }
  }

  lemma ElementCount(part: Part, i: nat, st: Store)
    requires part.width > 0
    ensures Count(Element(part, i), st) == One(InLine(part, st) && ElementOf(part, st) == i)
  {
    if part.to <= st.to {
      InElement(st.to - part.to, i, part.width);
      SkipIs(i, part.width);
    }
    ShiftedCount(part, Skip(i, part.width), i, st);
  }

  lemma ShiftedCount(part: Part, skip: nat, i: nat, st: Store)
    requires part.width > 0
    requires part.to <= st.to ==> (skip <= st.to - part.to < skip + part.width <==> ElementOf(part, st) == i)
    ensures Count(Words(part.to + skip, part.from + skip, part.width), st) ==
            One(InLine(part, st) && ElementOf(part, st) == i)
  {
    WordsCount(part.to + skip, part.from + skip, part.width, st);
  }

  lemma {:induction false} StridedCount(part: Part, first: nat, threads: nat, st: Store)
    requires part.width > 0 && threads > 0
    ensures Count(Elements(part, Strided(first, threads, part.n)), st) ==
            One(&& Hits(part, st) && first <= ElementOf(part, st)
                && Remainder(ElementOf(part, st), threads) == Remainder(first, threads))
    decreases if first < part.n then part.n - first else 0
  {
    if first < part.n {
      var rest := Strided(first + threads, threads, part.n);
      StridedCount(part, first + threads, threads, st);
      ElementCount(part, first, st);
      ElementsSplit(first, rest, part, st);
      if Hits(part, st) && first < ElementOf(part, st) &&
         Remainder(ElementOf(part, st), threads) == Remainder(first, threads) {
        StrideGap(ElementOf(part, st), first, threads);
      }
    }
  }

  lemma ElementsSplit(i: nat, rest: seq<nat>, part: Part, st: Store)
    ensures Count(Elements(part, [i] + rest), st) == Count(Element(part, i), st) + Count(Elements(part, rest), st)
  {
    assert ([i] + rest)[1..] == rest;
    CountConcat(Element(part, i), Elements(part, rest), st);
  }

  lemma {:induction false} AtLeastRemainder(x: nat, d: nat)
    requires d > 0
    ensures Remainder(x, d) <= x
  {
    if x >= d { AtLeastRemainder(x - d, d); }
  }

  /** A thread stores the words of the part's elements whose index it owns, each once. */
  lemma PartCount(part: Part, thread: nat, threads: nat, st: Store)
    requires part.width > 0 && thread < threads
    ensures Count(PartStores(part, thread, threads), st) ==
            One(Hits(part, st) && Remainder(ElementOf(part, st), threads) == thread)
  {
    StridedCount(part, thread, threads, st);
    if Hits(part, st) { AtLeastRemainder(ElementOf(part, st), threads); }
  }

  // ---- all threads together ----

  ghost function PartTimes(part: Part, threads: nat, st: Store, n: nat): nat
    requires threads > 0
  {
    if n == 0 then 0 else PartTimes(part, threads, st, n - 1) + Count(PartStores(part, n - 1, threads), st)
  }

  lemma {:induction false} PartTimesCount(part: Part, threads: nat, st: Store, n: nat)
    requires part.width > 0 && n <= threads && threads > 0
    ensures PartTimes(part, threads, st, n) ==
            One(Hits(part, st) && Remainder(ElementOf(part, st), threads) < n)
  {
    if n > 0 {
      PartTimesCount(part, threads, st, n - 1);
      PartCount(part, n - 1, threads, st);
    }
  }

  lemma PartsCount(a: Part, b: Part, c: Part, thread: nat, threads: nat, st: Store)
    requires threads > 0
    ensures Count(PartsStores(a, b, c, thread, threads), st) ==
            Count(PartStores(a, thread, threads), st) + Count(PartStores(b, thread, threads), st)
            + Count(PartStores(c, thread, threads), st)
  {
    var x, y, z := PartStores(a, thread, threads), PartStores(b, thread, threads), PartStores(c, thread, threads);
    CountConcat(x + y, z, st);
    CountConcat(x, y, st);
  }

  lemma {:induction false} TimesSplit(a: Part, b: Part, c: Part, threads: nat, st: Store, n: nat)
    requires threads > 0
    ensures Times(a, b, c, threads, st, n) ==
            PartTimes(a, threads, st, n) + PartTimes(b, threads, st, n) + PartTimes(c, threads, st, n)
  {
    if n > 0 {
      TimesSplit(a, b, c, threads, st, n - 1);
      PartsCount(a, b, c, n - 1, threads, st);
    }
  }

  lemma PartTotal(part: Part, threads: nat, st: Store)
    requires part.width > 0 && threads > 0
    ensures PartTimes(part, threads, st, threads) == One(Hits(part, st))
  {
    PartTimesCount(part, threads, st, threads);
  }

  /** Together the threads store a word once for each part that contains it. */
  lemma TotalCount(job: Job, st: Store)
    requires job.width > 0 && job.threads > 0
    ensures TotalTimes(job, st) ==
            One(Hits(HeadPart(job), st)) + One(Hits(BodyPart(job), st)) + One(Hits(TailPart(job), st))
  {
    TimesSplit(HeadPart(job), BodyPart(job), TailPart(job), job.threads, st, job.threads);
    PartTotal(HeadPart(job), job.threads, st);
    PartTotal(BodyPart(job), job.threads, st);
    PartTotal(TailPart(job), job.threads, st);
  }

  // ---- the copy is exact ----

  /** Equal misalignment makes both heads equally long. */
  lemma HeadsAgree(job: Job)
    requires Valid(job)
    ensures Head(job.src, job.width) == First(job)
  {
    HeadOf(job.dst, job.width);
    HeadOf(job.src, job.width);
  }

  lemma AlignUpOf(q: nat, r: nat, size: nat)
    requires r < size
    ensures AlignUp(q * size + r, size) == q * size + if r == 0 then 0 else size
  {
    if r == 0 {
      DivModUnique(size, q, size - 1);
    } else {
      DivModUnique(size, q + 1, r - 1);
      assert (q + 1) * size == q * size + size;
    }
  }

  /** The head in words depends on the misalignment alone. */
  lemma HeadOf(address: nat, width: nat)
    requires width in {1, 2, 4}
    ensures Head(address, width) == if address % (4 * width) == 0 then 0 else (4 * width - address % (4 * width)) / 4
  {
    var size := 4 * width;
    var q, r := address / size, address % size;
    assert q * size + r == address;
    AlignUpOf(q, r, size);
  }

  /** The word lies within the requested bytes. */
  predicate Requested(job: Job, x: nat) { 4 * x + 4 <= job.bytes }

  lemma RequestedIs(job: Job, x: nat)
    ensures Requested(job, x) <==> x < NumInt(job)
  {
  }

  /** Every requested word is stored once, from its own place in the source, and nothing else is. */
  ghost predicate Exact(job: Job)
    requires job.width > 0 && job.threads > 0
  {
    forall st: Store :: TotalTimes(job, st) == One(st.to == st.from && Requested(job, st.to))
  }

  lemma SingleWords(part: Part, st: Store)
    requires part.width == 1
    ensures Hits(part, st) <==> InLine(part, st) && st.to < part.to + part.n
  {
    if part.to <= st.to { BelowElement(st.to - part.to, part.n, 1); }
  }

  lemma WholeElements(part: Part, words: nat, st: Store)
    requires part.width > 0 && words == part.n * part.width
    ensures Hits(part, st) <==> InLine(part, st) && st.to < part.to + words
  {
    if part.to <= st.to { BelowElement(st.to - part.to, part.n, part.width); }
  }

  /** Three parts that lie end to end contain each of their words once. */
  lemma EndToEnd(a: Part, b: Part, c: Part, words: nat, st: Store)
    requires a.width == 1 && a.to == a.from == 0
    requires b.width > 0 && b.to == b.from == a.n && words == b.n * b.width
    requires c.width == 1 && c.to == c.from == b.to + words
    ensures One(Hits(a, st)) + One(Hits(b, st)) + One(Hits(c, st)) == One(st.to == st.from < c.to + c.n)
  {
    SingleWords(a, st);
    WholeElements(b, words, st);
    SingleWords(c, st);
  }

  lemma TailLength(job: Job)
    requires Valid(job) && job.remainder
    ensures TailPart(job).to + TailPart(job).n == First(job) + Rest(job)
  {
    var rest, w := Rest(job), job.width;
    assert rest / w * w + rest % w == rest;
  }

  /** With the 64-bit difference as it is computed, the threads store exactly the first
      `First + Rest` words, each once and from its own place. */
  lemma StoresUpTo(job: Job, st: Store)
    requires Valid(job) && job.remainder
    ensures TotalTimes(job, st) == One(st.to == st.from < First(job) + Rest(job))
  {
    TotalCount(job, st);
    HeadsAgree(job);
    TailLength(job);
    EndToEnd(HeadPart(job), BodyPart(job), TailPart(job), NumElem(job) * job.width, st);
  }

  lemma RestWraps(job: Job)
    requires Valid(job)
    ensures First(job) + Rest(job) == NumInt(job) + if First(job) <= NumInt(job) then 0 else WORD
  {
    HeadOf(job.dst, job.width);
    assert First(job) < 4;
  }

  lemma StoresUpToEnd(job: Job, st: Store)
    requires Valid(job) && job.remainder
    ensures TotalTimes(job, st) ==
            One(st.to == st.from < NumInt(job) + if First(job) <= NumInt(job) then 0 else WORD)
  {
    StoresUpTo(job, st);
    RestWraps(job);
  }

  /** For every element width and thread count: all threads together copy exactly the requested words
      if and only if the copy reaches the first aligned element. */
  lemma ExactIff(job: Job)
    requires Valid(job) && job.remainder
    ensures Exact(job) <==> 4 * First(job) <= job.bytes
  {
    forall st: Store
      ensures TotalTimes(job, st) ==
              One(st.to == st.from < NumInt(job) + if First(job) <= NumInt(job) then 0 else WORD)
      ensures Requested(job, st.to) <==> st.to < NumInt(job)
    {
      StoresUpToEnd(job, st);
      RequestedIs(job, st.to);
    }
    ghost var beyond := Store(NumInt(job), NumInt(job));
    assert First(job) > NumInt(job) ==> TotalTimes(job, beyond) == 1;
  }

  /** It can fail: one word copied to an address one word past a 16-byte boundary has a head of three
      words, so two words beyond the end are stored. */
  lemma HeadTooLongExample(job: Job)
    requires job == Job(4, 4, 4, 4, 1, true)
    ensures Valid(job) && First(job) == 3 && Requested(job, 0) && !Requested(job, 1) && !Exact(job)
  {
    HeadOf(job.dst, job.width);
    ExactIff(job);
  }

  /** The whole element around a word ends inside the first `rest` words. */
  lemma ElementInside(x: nat, rest: nat, width: nat)
    requires width > 0
    ensures x < rest / width * width <==> x / width * width + width <= rest
  {
    QuotientTimesDivisor(x, width);
    QuotientTimesDivisor(rest, width);
    var a, b := x / width, rest / width;
    if a < b { MulStep(a, b, width); } else if b < a { MulStep(b, a, width); }
  }

  /** Where the stores end: at the requested words, unless the difference wraps. */
  function StoredEnd(job: Job): nat
    requires job.width > 0
  {
    NumInt(job) + if First(job) <= NumInt(job) then 0 else WORD
  }

  /** Where the aligned element around a word ends. */
  function ElementEnd(job: Job, x: nat): int
    requires job.width > 0
  {
    First(job) + (x - First(job)) / job.width * job.width + job.width
  }

  /** The word belongs to an aligned element, which ends at or before `end`. */
  predicate InWholeElement(job: Job, x: nat, end: nat)
    requires job.width > 0
  {
    First(job) <= x && ElementEnd(job, x) <= end
  }

  lemma BodyWords(job: Job, x: nat)
    requires Valid(job)
    ensures First(job) <= x < First(job) + NumElem(job) * job.width <==> InWholeElement(job, x, StoredEnd(job))
  {
    RestWraps(job);
    if First(job) <= x { ElementInside(x - First(job), Rest(job), job.width); }
  }

  lemma BodyOnly(job: Job, st: Store)
    requires Valid(job) && !job.remainder
    ensures TotalTimes(job, st) == One(First(job) <= st.to == st.from < First(job) + NumElem(job) * job.width)
  {
    TotalCount(job, st);
    HeadsAgree(job);
    SingleWords(HeadPart(job), st);
    SingleWords(TailPart(job), st);
    WholeElements(BodyPart(job), NumElem(job) * job.width, st);
  }

  /** Without the remainders, exactly the words of aligned elements that end by the end of the stores
      are copied, each once. */
  lemma AlignedWordsOnly(job: Job, st: Store)
    requires Valid(job) && !job.remainder
    ensures TotalTimes(job, st) == One(st.to == st.from && InWholeElement(job, st.to, StoredEnd(job)))
  {
    BodyOnly(job, st);
    BodyWords(job, st.to);
  }

  ghost predicate AlignedExact(job: Job)
    requires job.width > 0 && job.threads > 0
  {
    forall st: Store :: TotalTimes(job, st) ==
      One(st.to == st.from && First(job) <= st.to && 4 * ElementEnd(job, st.to) <= job.bytes)
  }

  /** So they are the words of aligned elements inside the request if and only if the copy reaches the
      first of them. */
  lemma AlignedExactIff(job: Job)
    requires Valid(job) && !job.remainder
    ensures AlignedExact(job) <==> 4 * First(job) <= job.bytes
  {
    forall st: Store
      ensures TotalTimes(job, st) == One(st.to == st.from && InWholeElement(job, st.to, StoredEnd(job)))
    {
      AlignedWordsOnly(job, st);
    }
    if First(job) > NumInt(job) {
      var st := Store(First(job), First(job));
      HeadOf(job.dst, job.width);
      assert (st.to - First(job)) / job.width * job.width == 0;
      assert InWholeElement(job, st.to, StoredEnd(job)) && 4 * ElementEnd(job, st.to) > job.bytes;
      assert TotalTimes(job, st) == 1;
    }
  }

  // ---- memory ----

  predicate InBounds(stores: seq<Store>, n: nat, m: nat) {
    forall i :: 0 <= i < |stores| ==> stores[i].to < n && stores[i].from < m
  }

  /** The destination after the stores, in this order. */
  function Perform(mem: seq<int>, src: seq<int>, stores: seq<Store>): (r: seq<int>)
    requires InBounds(stores, |mem|, |src|)
    ensures |r| == |mem|
    decreases |stores|
  {
    if stores == [] then mem
    else
      var last := stores[|stores| - 1];
      Perform(mem, src, stores[..|stores| - 1])[last.to := src[last.from]]
  }

  lemma {:induction false} PerformConcat(mem: seq<int>, src: seq<int>, a: seq<Store>, b: seq<Store>)
    requires InBounds(a, |mem|, |src|) && InBounds(b, |mem|, |src|)
    ensures InBounds(a + b, |mem|, |src|)
    ensures Perform(mem, src, a + b) == Perform(Perform(mem, src, a), src, b)
    decreases |b|
  {
    if b == [] {
      assert a + b == a;
    } else {
      PerformConcat(mem, src, a, b[..|b| - 1]);
      assert (a + b)[..|a + b| - 1] == a + b[..|b| - 1];
    }
  }

  lemma PerformNext(mem: seq<int>, src: seq<int>, stores: seq<Store>, st: Store)
    requires InBounds(stores, |mem|, |src|) && st.to < |mem| && st.from < |src|
    ensures InBounds(stores + [st], |mem|, |src|)
    ensures Perform(mem, src, stores + [st]) == Perform(mem, src, stores)[st.to := src[st.from]]
  {
    assert (stores + [st])[..|stores|] == stores;
  }

  /** Stores from their own places leave each word copied if it is stored at all. */
  lemma {:induction false} PerformAt(mem: seq<int>, src: seq<int>, stores: seq<Store>, x: nat)
    requires InBounds(stores, |mem|, |src|) && x < |mem|
    requires forall i :: 0 <= i < |stores| ==> stores[i].to == stores[i].from
    ensures Count(stores, Store(x, x)) > 0 ==> x < |src|
    ensures Perform(mem, src, stores)[x] == if Count(stores, Store(x, x)) > 0 then src[x] else mem[x]
    decreases |stores|
  {
    if stores != [] {
      var before, last := stores[..|stores| - 1], stores[|stores| - 1];
      PerformAt(mem, src, before, x);
      assert before + [last] == stores;
      CountLast(before, last, Store(x, x));
    }
  }

  lemma {:induction false} CountPresent(stores: seq<Store>, i: nat)
    requires i < |stores|
    ensures Count(stores, stores[i]) > 0
  {
    if i > 0 { CountPresent(stores[1..], i - 1); }
  }

  /** A sequence of stores that performs each as often as all threads together do, in any order. */
  ghost predicate Interleaves(job: Job, all: seq<Store>)
    requires job.width > 0 && job.threads > 0
  {
    forall st: Store :: Count(all, st) == TotalTimes(job, st)
  }

  lemma InterleavedCount(job: Job, all: seq<Store>, st: Store)
    requires Valid(job) && job.remainder && First(job) <= NumInt(job) && Interleaves(job, all)
    ensures Count(all, st) == One(st.to == st.from < NumInt(job))
  {
    StoresUpToEnd(job, st);
    assert Count(all, st) == TotalTimes(job, st);
  }

  ghost predicate EachOnce(all: seq<Store>, n: nat) {
    && (forall i :: 0 <= i < |all| ==> all[i].to == all[i].from < n)
    && forall x: nat :: x < n ==> Count(all, Store(x, x)) == 1
  }

  lemma InterleavedOnce(job: Job, all: seq<Store>)
    requires Valid(job) && job.remainder && First(job) <= NumInt(job) && Interleaves(job, all)
    ensures EachOnce(all, NumInt(job))
  {
    forall i | 0 <= i < |all|
      ensures all[i].to == all[i].from < NumInt(job)
    {
      CountPresent(all, i);
      InterleavedCount(job, all, all[i]);
    }
    forall x: nat | x < NumInt(job)
      ensures Count(all, Store(x, x)) == 1
    {
      InterleavedCount(job, all, Store(x, x));
    }
  }

  lemma OnceIsCopy(all: seq<Store>, n: nat, mem: seq<int>, src: seq<int>)
    requires EachOnce(all, n) && n <= |mem| && n <= |src|
    ensures InBounds(all, |mem|, |src|) && Perform(mem, src, all) == src[..n] + mem[n..]
  {
    forall x: nat | x < |mem|
      ensures Perform(mem, src, all)[x] == if x < n then src[x] else mem[x]
    {
      PerformAt(mem, src, all, x);
      if Count(all, Store(x, x)) > 0 { CountFinds(all, Store(x, x)); }
    }
  }

  lemma {:induction false} CountFinds(stores: seq<Store>, st: Store)
    requires Count(stores, st) > 0
    ensures st in stores
  {
    if stores[0] != st { CountFinds(stores[1..], st); }
  }

  /** However the stores of all threads interleave, the requested words are copied and every other
      word of the destination keeps its value. */
  lemma AnyInterleavingCopies(job: Job, all: seq<Store>, mem: seq<int>, src: seq<int>)
    requires Valid(job) && job.remainder && 4 * First(job) <= job.bytes && Interleaves(job, all)
    requires NumInt(job) <= |mem| && NumInt(job) <= |src|
    ensures InBounds(all, |mem|, |src|) && |Perform(mem, src, all)| == |mem|
    ensures forall x: nat :: x < |mem| ==>
              Perform(mem, src, all)[x] == if x < |src| && Requested(job, x) then src[x] else mem[x]
  {
    InterleavedOnce(job, all);
    OnceIsCopy(all, NumInt(job), mem, src);
    forall x: nat | x < |mem|
      ensures Requested(job, x) <==> x < NumInt(job)
    {
      RequestedIs(job, x);
    }
  }

  // ---- the code of one thread ----

  method CopyWords(dst: array<int>, src: array<int>, to: nat, from: nat, k: nat)
    requires dst != src && InBounds(Words(to, from, k), dst.Length, src.Length)
    modifies dst
    ensures dst[..] == Perform(old(dst[..]), src[..], Words(to, from, k))
  {
    var j := 0;
    while j < k
      invariant j <= k && InBounds(Words(to, from, j), dst.Length, src.Length)
      invariant dst[..] == Perform(old(dst[..]), src[..], Words(to, from, j))
    {
      WordsNext(old(dst[..]), src[..], to, from, j, k);
      dst[to + j] := src[from + j];
      j := j + 1;
    }
  }

  lemma WordsNext(mem: seq<int>, src: seq<int>, to: nat, from: nat, j: nat, k: nat)
    requires j < k && InBounds(Words(to, from, k), |mem|, |src|)
    ensures to + j < |mem| && from + j < |src|
    ensures InBounds(Words(to, from, j), |mem|, |src|) && InBounds(Words(to, from, j + 1), |mem|, |src|)
    ensures Perform(mem, src, Words(to, from, j + 1)) == Perform(mem, src, Words(to, from, j))[to + j := src[from + j]]
  {
    WordsInBounds(to, from, k, |mem|, |src|);
    WordsInBounds(to, from, j, |mem|, |src|);
    PerformNext(mem, src, Words(to, from, j), Store(to + j, from + j));
  }

  lemma {:induction false} WordsInBounds(to: nat, from: nat, k: nat, n: nat, m: nat)
    ensures |Words(to, from, k)| == k
    ensures InBounds(Words(to, from, k), n, m) <==> k == 0 || (to + k <= n && from + k <= m)
  {
    if k > 0 {
      WordsInBounds(to, from, k - 1, n, m);
      assert Words(to, from, k)[k - 1] == Store(to + k - 1, from + k - 1);
      assert forall i :: 0 <= i < k - 1 ==> Words(to, from, k)[i] == Words(to, from, k - 1)[i];
    }
  }

  /** The strided loop over the elements of a part. */
  method CopyPart(dst: array<int>, src: array<int>, part: Part, thread: nat, threads: nat)
    requires threads > 0 && dst != src && InBounds(PartStores(part, thread, threads), dst.Length, src.Length)
    modifies dst
    ensures dst[..] == Perform(old(dst[..]), src[..], PartStores(part, thread, threads))
  {
    var i := thread;
    ghost var result := Perform(dst[..], src[..], PartStores(part, thread, threads));
    while i < part.n
      invariant InBounds(Elements(part, Strided(i, threads, part.n)), dst.Length, src.Length)
      invariant Perform(dst[..], src[..], Elements(part, Strided(i, threads, part.n))) == result
      decreases part.n - i
    {
      ElementFirst(dst[..], src[..], part, i, threads);
      CopyElement(dst, src, part, i);
      i := i + threads;
    }
  }

  method CopyElement(dst: array<int>, src: array<int>, part: Part, i: nat)
    requires dst != src && InBounds(Element(part, i), dst.Length, src.Length)
    modifies dst
    ensures dst[..] == Perform(old(dst[..]), src[..], Element(part, i))
  {
    SkipIs(i, part.width);
    CopyWords(dst, src, part.to + i * part.width, part.from + i * part.width, part.width);
  }

  /** The loop's remaining stores are those of this element and then the rest. */
  lemma ElementFirst(mem: seq<int>, src: seq<int>, part: Part, i: nat, threads: nat)
    requires threads > 0 && i < part.n
    requires InBounds(Elements(part, Strided(i, threads, part.n)), |mem|, |src|)
    ensures InBounds(Element(part, i), |mem|, |src|)
    ensures InBounds(Elements(part, Strided(i + threads, threads, part.n)), |mem|, |src|)
    ensures Perform(mem, src, Elements(part, Strided(i, threads, part.n))) ==
            Perform(Perform(mem, src, Element(part, i)), src, Elements(part, Strided(i + threads, threads, part.n)))
  {
    var tail := Strided(i + threads, threads, part.n);
    assert ([i] + tail)[1..] == tail;
    BoundsSplit(Element(part, i), Elements(part, tail), |mem|, |src|);
    PerformConcat(mem, src, Element(part, i), Elements(part, tail));
  }

  /** One thread's call: head, elements, tail. */
  method Copy(dst: array<int>, src: array<int>, job: Job, thread: nat)
    requires Valid(job) && dst != src && InBounds(ThreadStores(job, thread), dst.Length, src.Length)
    modifies dst
    ensures dst[..] == Perform(old(dst[..]), src[..], ThreadStores(job, thread))
  {
    ghost var a, b, c := PartStores(HeadPart(job), thread, job.threads), PartStores(BodyPart(job), thread, job.threads),
                         PartStores(TailPart(job), thread, job.threads);
    BoundsSplit(a + b, c, dst.Length, src.Length);
    BoundsSplit(a, b, dst.Length, src.Length);
    PerformConcat(dst[..], src[..], a + b, c);
    PerformConcat(dst[..], src[..], a, b);
    CopyPart(dst, src, HeadPart(job), thread, job.threads);
    CopyPart(dst, src, BodyPart(job), thread, job.threads);
    CopyPart(dst, src, TailPart(job), thread, job.threads);
  }

  lemma BoundsSplit(a: seq<Store>, b: seq<Store>, n: nat, m: nat)
    requires InBounds(a + b, n, m)
    ensures InBounds(a, n, m) && InBounds(b, n, m)
  {
    forall i | 0 <= i < |a| ensures a[i].to < n && a[i].from < m { assert (a + b)[i] == a[i]; }
    forall i | 0 <= i < |b| ensures b[i].to < n && b[i].from < m { assert (a + b)[|a| + i] == b[i]; }
  }
}
