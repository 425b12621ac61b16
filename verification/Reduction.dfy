/** Folding an arbitrary associative and commutative operator over values.
    The collective algorithms combine the same contributions in different orders
    on different ranks; the lemmas here say when two orders agree. */
module Reduction {

  ghost predicate AssociativeCommutative<V(!new)>(op: (V, V) -> V) {
    && (forall a, b :: op(a, b) == op(b, a))
    && (forall a, b, c :: op(op(a, b), c) == op(a, op(b, c)))
  }

  /** Accumulates `xs` into `acc` from left to right. */
  function FoldLeft<V>(op: (V, V) -> V, acc: V, xs: seq<V>): V {
    if xs == [] then acc
    else op(FoldLeft(op, acc, xs[..|xs| - 1]), xs[|xs| - 1])
  }

  /** The reduction of a nonempty sequence. */
  function Sum<V>(op: (V, V) -> V, xs: seq<V>): V
    requires xs != []
  {
    FoldLeft(op, xs[0], xs[1..])
  }

  function Without<V>(xs: seq<V>, i: nat): seq<V>
    requires i < |xs|
  {
    xs[..i] + xs[i + 1..]
  }

  lemma {:induction false} FoldLeftConcat<V>(op: (V, V) -> V, acc: V, xs: seq<V>, ys: seq<V>)
    ensures FoldLeft(op, acc, xs + ys) == FoldLeft(op, FoldLeft(op, acc, xs), ys)
    decreases |ys|
  {
    if ys == [] {
      assert xs + ys == xs;
    } else {
      var init := ys[..|ys| - 1];
      assert (xs + ys)[..|xs + ys| - 1] == xs + init;
      FoldLeftConcat(op, acc, xs, init);
    }
  }

  lemma {:induction false} FoldLeftPull<V(!new)>(op: (V, V) -> V, acc: V, x: V, xs: seq<V>)
    requires AssociativeCommutative(op)
    ensures FoldLeft(op, op(acc, x), xs) == op(FoldLeft(op, x, xs), acc)
  {
    if xs != [] {
      FoldLeftPull(op, acc, x, xs[..|xs| - 1]);
    }
  }

  /** A sum splits at any cut. */
  lemma SumConcat<V(!new)>(op: (V, V) -> V, xs: seq<V>, ys: seq<V>)
    requires AssociativeCommutative(op)
    requires xs != [] && ys != []
    ensures Sum(op, xs + ys) == op(Sum(op, xs), Sum(op, ys))
  {
    assert (xs + ys)[1..] == xs[1..] + ys;
    FoldLeftConcat(op, xs[0], xs[1..], ys);
    var a := Sum(op, xs);
    assert ys == [ys[0]] + ys[1..];
    FoldLeftConcat(op, a, [ys[0]], ys[1..]);
    assert FoldLeft(op, a, [ys[0]]) == op(a, ys[0]);
    FoldLeftPull(op, a, ys[0], ys[1..]);
  }

  /** Starting from element `i` and adding all the others in order gives the sum. */
  lemma SumMoveToFront<V(!new)>(op: (V, V) -> V, xs: seq<V>, i: nat)
    requires AssociativeCommutative(op)
    requires i < |xs|
    ensures FoldLeft(op, xs[i], Without(xs, i)) == Sum(op, xs)
  {
    var pre, post := xs[..i], xs[i + 1..];
    FoldLeftConcat(op, xs[i], pre, post);
    if i == 0 {
      assert pre == [];
    } else {
      assert pre == [xs[0]] + pre[1..];
      FoldLeftConcat(op, xs[i], [xs[0]], pre[1..]);
      assert FoldLeft(op, xs[i], [xs[0]]) == op(xs[i], xs[0]);
      FoldLeftPull(op, xs[i], xs[0], pre[1..]);
      assert xs[1..] == pre[1..] + ([xs[i]] + post);
      FoldLeftConcat(op, xs[0], pre[1..], [xs[i]] + post);
      FoldLeftConcat(op, FoldLeft(op, xs[0], pre[1..]), [xs[i]], post);
      assert FoldLeft(op, FoldLeft(op, xs[0], pre[1..]), [xs[i]])
          == op(FoldLeft(op, xs[0], pre[1..]), xs[i]);
    }
  }

  function Flatten<V>(rows: seq<seq<V>>): seq<V> {
    if rows == [] then [] else Flatten(rows[..|rows| - 1]) + rows[|rows| - 1]
  }

  function Sums<V>(op: (V, V) -> V, rows: seq<seq<V>>): (r: seq<V>)
    requires forall i :: 0 <= i < |rows| ==> rows[i] != []
    ensures |r| == |rows|
  {
    seq(|rows|, i requires 0 <= i < |rows| => Sum(op, rows[i]))
  }

  /** Summing row by row and then over the rows is summing everything. */
  lemma {:induction false} SumOfSums<V(!new)>(op: (V, V) -> V, rows: seq<seq<V>>)
    requires AssociativeCommutative(op)
    requires rows != [] && forall i :: 0 <= i < |rows| ==> rows[i] != []
    ensures Flatten(rows) != []
    ensures Sum(op, Sums(op, rows)) == Sum(op, Flatten(rows))
    decreases |rows|
  {
    var init, last := rows[..|rows| - 1], rows[|rows| - 1];
    if init == [] {
      assert Flatten(rows) == last;
      assert Sums(op, rows) == [Sum(op, last)];
    } else {
      SumOfSums(op, init);
      assert Sums(op, rows) == Sums(op, init) + [Sum(op, last)];
      SumConcat(op, Sums(op, init), [Sum(op, last)]);
      SumConcat(op, Flatten(init), last);
    }
  }
}
