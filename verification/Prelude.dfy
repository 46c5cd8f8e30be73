/** Shared vocabulary: optional values, sums over a pool of workers, and Go's 64-bit integers. */
module Prelude {

  datatype Option<+T> = None | Some(value: T)

  // ----- sums over a sequence of goroutines -----

  /** Adds up `weight` over `xs`. */
  function Total<A>(xs: seq<A>, weight: A -> nat): nat {
    if xs == [] then 0 else weight(xs[0]) + Total(xs[1..], weight)
  }

  /** Replacing one element changes the sum by the difference of the two weights. */
  lemma {:induction false} TotalUpdate<A>(xs: seq<A>, i: nat, x: A, weight: A -> nat)
    requires i < |xs|
    ensures Total(xs[i := x], weight) + weight(xs[i]) == Total(xs, weight) + weight(x)
    ensures weight(xs[i]) <= Total(xs, weight)
  {
    if i == 0 {
      assert xs[0 := x][1..] == xs[1..];
    } else {
      assert xs[i := x][1..] == xs[1..][i - 1 := x];
      TotalUpdate(xs[1..], i - 1, x, weight);
    }
  }

  /** One more element adds its weight. */
  lemma {:induction false} TotalAppend<A>(xs: seq<A>, x: A, weight: A -> nat)
    ensures Total(xs + [x], weight) == Total(xs, weight) + weight(x)
  {
    if xs == [] {
      assert xs + [x] == [x];
    } else {
      assert (xs + [x])[1..] == xs[1..] + [x];
      TotalAppend(xs[1..], x, weight);
    }
  }

  /** A sum whose terms are at most `k`. */
  lemma {:induction false} TotalAtMost<A>(xs: seq<A>, weight: A -> nat, k: nat)
    requires forall i | 0 <= i < |xs| :: weight(xs[i]) <= k
    ensures Total(xs, weight) <= k * |xs|
  {
    if xs != [] {
      TotalAtMost(xs[1..], weight, k);
      assert k * |xs| == k * |xs[1..]| + k;
    }
  }

  /** A sum whose terms are all `k`. */
  lemma {:induction false} TotalUniform<A>(xs: seq<A>, weight: A -> nat, k: nat)
    requires forall i | 0 <= i < |xs| :: weight(xs[i]) == k
    ensures Total(xs, weight) == k * |xs|
  {
    if xs != [] {
      TotalUniform(xs[1..], weight, k);
      assert k * |xs| == k * |xs[1..]| + k;
    }
  }

  /** `k * n` as repeated addition, which keeps step counts linear for the solver. */
  function Times(k: nat, n: nat): nat {
    if n == 0 then 0 else Times(k, n - 1) + k
  }

  lemma {:induction false} TimesIsProduct(k: nat, n: nat)
    ensures Times(k, n) == k * n
  {
    if n > 0 {
      TimesIsProduct(k, n - 1);
      assert k * n == k * (n - 1) + k;
    }
  }

  // ----- Go's int and time.Duration on a 64-bit platform -----

  const MAX64: int := 0x7FFF_FFFF_FFFF_FFFF
  const TWO64: int := 0x1_0000_0000_0000_0000

  /** The value a 64-bit two's-complement register holds after an operation whose true result is `x`. */
  function Wrap64(x: int): (r: int)
    ensures -MAX64 - 1 <= r <= MAX64
    ensures -MAX64 - 1 <= x <= MAX64 ==> r == x
    ensures (x - r) % TWO64 == 0
  {
    (x + MAX64 + 1) % TWO64 - MAX64 - 1
  }

  /** One overflow upward comes out as the value minus 2^64. */
  lemma WrapsOnce(x: int)
    requires 0 <= x < TWO64
    ensures Wrap64(x) == if x <= MAX64 then x else x - TWO64
  {
  }
}
