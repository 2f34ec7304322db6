/**
 * Lagrange interpolation of sample points (x[k], f(x[k])) at a query abscissa,
 * with the per-node trace table the console program prints.
 *
 * Arithmetic is over `real`: the model is exact where the program uses `double`.
 */
module Lagrange {

  /** One printed table row: k, x[k], f(x[k]), L_k(x), f(x[k])*L_k(x), partial sum. */
  datatype TraceRow = TraceRow(k: nat, x: real, fx: real, basis: real, term: real, partial: real)

  /** Pairwise-distinct nodes: the divisor x[k] - x[j] of every basis factor is non-zero. */
  predicate Distinct(xs: seq<real>)
  {
    forall i, j :: 0 <= i < j < |xs| ==> xs[i] != xs[j]
  }

  /** The factor (q - x[j]) / (x[k] - x[j]) of L_k at q. */
  function Factor(xs: seq<real>, k: nat, j: nat, q: real): real
    requires k < |xs| && j < |xs| && j != k
    requires Distinct(xs)
  {
    (q - xs[j]) / (xs[k] - xs[j])
  }

  /** Product of the factors of L_k(q) for j = 0 .. m-1, j != k (the inner loop after m steps). */
  function BasisUpTo(xs: seq<real>, k: nat, q: real, m: nat): real
    requires k < |xs| && m <= |xs|
    requires Distinct(xs)
  {
    if m == 0 then 1.0
    else if m - 1 == k then BasisUpTo(xs, k, q, m - 1)
    else BasisUpTo(xs, k, q, m - 1) * Factor(xs, k, m - 1, q)
  }

  /** The Lagrange basis value L_k(q) = product over j != k of (q - x[j]) / (x[k] - x[j]). */
  function Basis(xs: seq<real>, k: nat, q: real): real
    requires k < |xs|
    requires Distinct(xs)
  {
    BasisUpTo(xs, k, q, |xs|)
  }

  /** The weighted term f(x[k]) * L_k(q). */
  function Term(xs: seq<real>, fs: seq<real>, k: nat, q: real): real
    requires k < |xs| <= |fs|
    requires Distinct(xs)
  {
    fs[k] * Basis(xs, k, q)
  }

  /** Sum of the terms 0 .. m-1. */
  function PartialSum(xs: seq<real>, fs: seq<real>, q: real, m: nat): real
    requires m <= |xs| <= |fs|
    requires Distinct(xs)
  {
    if m == 0 then 0.0 else PartialSum(xs, fs, q, m - 1) + Term(xs, fs, m - 1, q)
  }

  /** The interpolated value: the sum over every node k of f(x[k]) * L_k(q). */
  function Interpolation(xs: seq<real>, fs: seq<real>, q: real): real
    requires |xs| <= |fs|
    requires Distinct(xs)
  {
    PartialSum(xs, fs, q, |xs|)
  }

  /** The table row printed for node k. */
  function Row(xs: seq<real>, fs: seq<real>, q: real, k: nat): TraceRow
    requires k < |xs| <= |fs|
    requires Distinct(xs)
  {
    TraceRow(k, xs[k], fs[k], Basis(xs, k, q), Term(xs, fs, k, q), PartialSum(xs, fs, q, k + 1))
  }

  /**
   * `interpolacao_lagrange`: the outer loop over nodes k, the inner loop multiplying
   * L_k in place, the weighted term and the running sum; each row that the program
   * prints is returned in `trace` instead.
   */
  method Interpolate(xs: seq<real>, fs: seq<real>, q: real) returns (value: real, trace: seq<TraceRow>)
    requires |xs| <= |fs|
    requires Distinct(xs)
    ensures value == Interpolation(xs, fs, q)
    ensures |trace| == |xs|
    ensures forall k :: 0 <= k < |xs| ==> trace[k] == Row(xs, fs, q, k)
    ensures |xs| == 0 ==> value == 0.0
    ensures |xs| > 0 ==> trace[|xs| - 1].partial == value
  {
    var n := |xs|;
    value := 0.0;
    trace := [];
    var k := 0;
    while k < n
      invariant 0 <= k <= n
      invariant value == PartialSum(xs, fs, q, k)
      invariant |trace| == k
      invariant forall i :: 0 <= i < k ==> trace[i] == Row(xs, fs, q, i)
    {
      var basis := BasisAt(xs, k, q);
      var term := fs[k] * basis;
      value := value + term;
      trace := trace + [TraceRow(k, xs[k], fs[k], basis, term, value)];
      k := k + 1;
    }
  }

  /** The inner loop of `interpolacao_lagrange`: L_k(q), multiplied factor by factor, skipping j == k. */
  method BasisAt(xs: seq<real>, k: nat, q: real) returns (basis: real)
    requires k < |xs|
    requires Distinct(xs)
    ensures basis == Basis(xs, k, q)
  {
    basis := 1.0;
    var j := 0;
    while j < |xs|
      invariant 0 <= j <= |xs|
      invariant basis == BasisUpTo(xs, k, q, j)
    {
      if j != k {
        basis := basis * ((q - xs[j]) / (xs[k] - xs[j]));
      }
      j := j + 1;
    }
  }

  /** Each row's partial sum is the previous row's plus its own term; row 0 starts from zero. */
  lemma {:induction false} RowsAccumulate(xs: seq<real>, fs: seq<real>, q: real, k: nat)
    requires k < |xs| <= |fs|
    requires Distinct(xs)
    ensures Row(xs, fs, q, k).partial
         == (if k == 0 then 0.0 else Row(xs, fs, q, k - 1).partial) + Row(xs, fs, q, k).term
  {
    assert PartialSum(xs, fs, q, k + 1) == PartialSum(xs, fs, q, k) + Term(xs, fs, k, q);
  }

  /** L_k at its own node x[k] is 1: every factor is (x[k] - x[j]) / (x[k] - x[j]). */
  lemma {:induction false} BasisAtOwnNode(xs: seq<real>, k: nat, m: nat)
    requires k < |xs| && m <= |xs|
    requires Distinct(xs)
    ensures BasisUpTo(xs, k, xs[k], m) == 1.0
  {
    if m > 0 {
      BasisAtOwnNode(xs, k, m - 1);
      if m - 1 != k {
        var d := xs[k] - xs[m - 1];
        assert d != 0.0 by {
          if k < m - 1 { assert xs[k] != xs[m - 1]; } else { assert xs[m - 1] != xs[k]; }
        }
        assert Factor(xs, k, m - 1, xs[k]) == d / d;
        assert d / d == 1.0;
      }
    }
  }

  /** L_k at another node x[i] is 0 once the factor for j = i has been multiplied in. */
  lemma {:induction false} BasisAtOtherNode(xs: seq<real>, k: nat, i: nat, m: nat)
    requires k < |xs| && i < m <= |xs| && i != k
    requires Distinct(xs)
    ensures BasisUpTo(xs, k, xs[i], m) == 0.0
  {
    if m - 1 == i {
      assert Factor(xs, k, i, xs[i]) == 0.0;
    } else {
      BasisAtOtherNode(xs, k, i, m - 1);
    }
  }

  /** The partial sums at a node x[i]: 0 before node i is reached and f(x[i]) from then on. */
  lemma {:induction false} PartialSumAtNode(xs: seq<real>, fs: seq<real>, i: nat, m: nat)
    requires i < |xs| <= |fs| && m <= |xs|
    requires Distinct(xs)
    ensures PartialSum(xs, fs, xs[i], m) == if i < m then fs[i] else 0.0
  {
    if m > 0 {
      PartialSumAtNode(xs, fs, i, m - 1);
      if m - 1 == i {
        BasisAtOwnNode(xs, i, |xs|);
      } else {
        BasisAtOtherNode(xs, m - 1, i, |xs|);
      }
    }
  }

  /** Exactness at the nodes: interpolating at x[i] gives back f(x[i]). */
  lemma ExactAtNodes(xs: seq<real>, fs: seq<real>, i: nat)
    requires i < |xs| <= |fs|
    requires Distinct(xs)
    ensures Interpolation(xs, fs, xs[i]) == fs[i]
  {
    PartialSumAtNode(xs, fs, i, |xs|);
  }

  /** With one node the inner product is empty: L_0 = 1 and the result is f(x[0]) for every query. */
  lemma SingleNode(xs: seq<real>, fs: seq<real>, q: real)
    requires |xs| == 1 <= |fs|
    ensures Distinct(xs)
    ensures Basis(xs, 0, q) == 1.0
    ensures Interpolation(xs, fs, q) == fs[0]
  {
    assert BasisUpTo(xs, 0, q, 1) == BasisUpTo(xs, 0, q, 0);
    assert PartialSum(xs, fs, q, 1) == PartialSum(xs, fs, q, 0) + Term(xs, fs, 0, q);
  }

  /** With two distinct nodes the result is the straight line through them. */
  lemma TwoNodes(xs: seq<real>, fs: seq<real>, q: real)
    requires |xs| == 2 <= |fs|
    requires xs[0] != xs[1]
    ensures Distinct(xs)
    ensures Interpolation(xs, fs, q)
         == fs[0] + (fs[1] - fs[0]) * (q - xs[0]) / (xs[1] - xs[0])
  {
    var x0, x1, f0, f1 := xs[0], xs[1], fs[0], fs[1];
    var l1 := (q - x0) / (x1 - x0);
    TwoNodeBases(xs, q);
    assert Interpolation(xs, fs, q) == f0 * Basis(xs, 0, q) + f1 * Basis(xs, 1, q) by {
      assert PartialSum(xs, fs, q, 1) == PartialSum(xs, fs, q, 0) + Term(xs, fs, 0, q);
      assert PartialSum(xs, fs, q, 2) == PartialSum(xs, fs, q, 1) + Term(xs, fs, 1, q);
    }
    LineThrough(f0, f1, l1, q - x0, x1 - x0);
  }

  /** The two basis values for two nodes: L_0 = 1 - L_1 and L_1 = (q - x[0]) / (x[1] - x[0]). */
  lemma TwoNodeBases(xs: seq<real>, q: real)
    requires |xs| == 2 && xs[0] != xs[1]
    ensures Distinct(xs)
    ensures Basis(xs, 1, q) == (q - xs[0]) / (xs[1] - xs[0])
    ensures Basis(xs, 0, q) == 1.0 - Basis(xs, 1, q)
  {
    var x0, x1 := xs[0], xs[1];
    assert Basis(xs, 0, q) == (q - x1) / (x0 - x1) by {
      assert BasisUpTo(xs, 0, q, 1) == 1.0;
      assert BasisUpTo(xs, 0, q, 2) == BasisUpTo(xs, 0, q, 1) * Factor(xs, 0, 1, q);
    }
    assert Basis(xs, 1, q) == (q - x0) / (x1 - x0) by {
      assert BasisUpTo(xs, 1, q, 1) == BasisUpTo(xs, 1, q, 0) * Factor(xs, 1, 0, q);
      assert BasisUpTo(xs, 1, q, 2) == BasisUpTo(xs, 1, q, 1);
    }
    QuotientNegated(q - x1, x0 - x1);
    QuotientsSum(x1 - q, q - x0, x1 - x0);
  }

  lemma LineThrough(f0: real, f1: real, l1: real, a: real, d: real)
    requires d != 0.0 && l1 == a / d
    ensures f0 * (1.0 - l1) + f1 * l1 == f0 + (f1 - f0) * a / d
  {
    assert (f1 - f0) * (a / d) == (f1 - f0) * a / d;
  }

  lemma QuotientsSum(a: real, b: real, d: real)
    requires d != 0.0 && a + b == d
    ensures a / d + b / d == 1.0
  {
    assert a / d + b / d == (a + b) / d;
  }

  lemma QuotientNegated(a: real, d: real)
    requires d != 0.0
    ensures a / d == (-a) / (-d)
  {
  }

  /** `s` with its entries at `k` and `k + 1` exchanged. */
  function SwapAt<T>(s: seq<T>, k: nat): (r: seq<T>)
    requires k + 1 < |s|
    ensures |r| == |s| && r[k] == s[k + 1] && r[k + 1] == s[k]
    ensures forall j :: 0 <= j < |s| && j != k && j != k + 1 ==> r[j] == s[j]
  {
    s[k := s[k + 1]][k + 1 := s[k]]
  }

  /** Where position `m` goes when positions `k` and `k + 1` are exchanged. */
  function Moved(k: nat, m: nat): nat
  {
    if m == k then k + 1 else if m == k + 1 then k else m
  }

  /** Exchanging two neighbouring nodes keeps them pairwise distinct. */
  lemma SwapDistinct(xs: seq<real>, k: nat)
    requires k + 1 < |xs|
    requires Distinct(xs)
    ensures Distinct(SwapAt(xs, k))
  {
    var ys := SwapAt(xs, k);
    forall i, j | 0 <= i < j < |ys|
      ensures ys[i] != ys[j]
    {
      assert ys[i] == xs[Moved(k, i)] && ys[j] == xs[Moved(k, j)];
      if Moved(k, i) > Moved(k, j) {
        assert xs[Moved(k, j)] != xs[Moved(k, i)];
      }
    }
  }

  /**
   * The partial products of L_m agree before and after the exchange, once
   * both exchanged factors (or neither) have been multiplied in: the same
   * factors, taken in another order.
   */
  lemma {:induction false} SwapBasisUpTo(xs: seq<real>, k: nat, m: nat, q: real, n: nat)
    requires k + 1 < |xs| && m < |xs| && n <= |xs| && n != k + 1
    requires Distinct(xs)
    ensures Distinct(SwapAt(xs, k))
    ensures BasisUpTo(SwapAt(xs, k), Moved(k, m), q, n) == BasisUpTo(xs, m, q, n)
  {
    SwapDistinct(xs, k);
    if n == k + 2 {
      SwapBasisUpTo(xs, k, m, q, k);
      SwapBasisPair(xs, k, m, q);
    } else if n > 0 {
      SwapBasisUpTo(xs, k, m, q, n - 1);
      SwapBasisStep(xs, k, m, q, n);
    }
  }

  /** Multiplying in both exchanged factors, in either order, gives the same product. */
  lemma SwapBasisPair(xs: seq<real>, k: nat, m: nat, q: real)
    requires k + 1 < |xs| && m < |xs|
    requires Distinct(xs) && Distinct(SwapAt(xs, k))
    requires BasisUpTo(SwapAt(xs, k), Moved(k, m), q, k) == BasisUpTo(xs, m, q, k)
    ensures BasisUpTo(SwapAt(xs, k), Moved(k, m), q, k + 2) == BasisUpTo(xs, m, q, k + 2)
  {
    if m == k {
      SwapBasisPairOwn(xs, k, q);
    } else if m == k + 1 {
      SwapBasisPairOwnNext(xs, k, q);
    } else {
      SwapBasisPairOther(xs, k, m, q);
    }
  }

  /** L_k skips its own factor: only the factor of node k + 1 enters, on both sides. */
  lemma SwapBasisPairOwn(xs: seq<real>, k: nat, q: real)
    requires k + 1 < |xs|
    requires Distinct(xs) && Distinct(SwapAt(xs, k))
    requires BasisUpTo(SwapAt(xs, k), k + 1, q, k) == BasisUpTo(xs, k, q, k)
    ensures BasisUpTo(SwapAt(xs, k), k + 1, q, k + 2) == BasisUpTo(xs, k, q, k + 2)
  {
    var ys, p := SwapAt(xs, k), BasisUpTo(xs, k, q, k);
    assert ys[k] == xs[k + 1] && ys[k + 1] == xs[k];
    assert Factor(ys, k + 1, k, q) == Factor(xs, k, k + 1, q);
    assert BasisUpTo(ys, k + 1, q, k + 1) == p * Factor(xs, k, k + 1, q);
    assert BasisUpTo(xs, k, q, k + 1) == p;
  }

  /** L_{k+1} skips its own factor: only the factor of node k enters, on both sides. */
  lemma SwapBasisPairOwnNext(xs: seq<real>, k: nat, q: real)
    requires k + 1 < |xs|
    requires Distinct(xs) && Distinct(SwapAt(xs, k))
    requires BasisUpTo(SwapAt(xs, k), k, q, k) == BasisUpTo(xs, k + 1, q, k)
    ensures BasisUpTo(SwapAt(xs, k), k, q, k + 2) == BasisUpTo(xs, k + 1, q, k + 2)
  {
    var ys, p := SwapAt(xs, k), BasisUpTo(xs, k + 1, q, k);
    assert ys[k] == xs[k + 1] && ys[k + 1] == xs[k];
    assert Factor(ys, k, k + 1, q) == Factor(xs, k + 1, k, q);
    assert BasisUpTo(ys, k, q, k + 1) == p;
    assert BasisUpTo(xs, k + 1, q, k + 1) == p * Factor(xs, k + 1, k, q);
  }

  /** Any other L_m takes both factors, in the opposite order. */
  lemma SwapBasisPairOther(xs: seq<real>, k: nat, m: nat, q: real)
    requires k + 1 < |xs| && m < |xs| && m != k && m != k + 1
    requires Distinct(xs) && Distinct(SwapAt(xs, k))
    requires BasisUpTo(SwapAt(xs, k), Moved(k, m), q, k) == BasisUpTo(xs, m, q, k)
    ensures BasisUpTo(SwapAt(xs, k), Moved(k, m), q, k + 2) == BasisUpTo(xs, m, q, k + 2)
  {
    var ys, m', p := SwapAt(xs, k), Moved(k, m), BasisUpTo(xs, m, q, k);
    assert ys[k] == xs[k + 1] && ys[k + 1] == xs[k] && ys[m'] == xs[m];
    var a, b := Factor(xs, m, k, q), Factor(xs, m, k + 1, q);
    assert Factor(ys, m', k, q) == b;
    assert Factor(ys, m', k + 1, q) == a;
    BasisTwoSteps(ys, m', q, k);
    BasisTwoSteps(xs, m, q, k);
    MulSwap(p, a, b);
  }

  /** Two steps of the product of L_m past two nodes other than m. */
  lemma BasisTwoSteps(xs: seq<real>, m: nat, q: real, k: nat)
    requires k + 1 < |xs| && m < |xs| && m != k && m != k + 1
    requires Distinct(xs)
    ensures BasisUpTo(xs, m, q, k + 2) == BasisUpTo(xs, m, q, k) * Factor(xs, m, k, q) * Factor(xs, m, k + 1, q)
  {
  }

  /** A factor away from the exchanged pair is the same before and after the exchange. */
  lemma SwapBasisStep(xs: seq<real>, k: nat, m: nat, q: real, n: nat)
    requires k + 1 < |xs| && m < |xs| && 0 < n <= |xs| && n != k + 1 && n != k + 2
    requires Distinct(xs) && Distinct(SwapAt(xs, k))
    requires BasisUpTo(SwapAt(xs, k), Moved(k, m), q, n - 1) == BasisUpTo(xs, m, q, n - 1)
    ensures BasisUpTo(SwapAt(xs, k), Moved(k, m), q, n) == BasisUpTo(xs, m, q, n)
  {
    var ys, m' := SwapAt(xs, k), Moved(k, m);
    if n - 1 != m {
      assert ys[n - 1] == xs[n - 1] && ys[m'] == xs[m];
      assert Factor(ys, m', n - 1, q) == Factor(xs, m, n - 1, q);
      BasisOneStep(ys, m', q, n);
      BasisOneStep(xs, m, q, n);
    }
  }

  /** One step of the product of L_m past a node other than m. */
  lemma BasisOneStep(xs: seq<real>, m: nat, q: real, n: nat)
    requires 0 < n <= |xs| && m < |xs| && n - 1 != m
    requires Distinct(xs)
    ensures BasisUpTo(xs, m, q, n) == BasisUpTo(xs, m, q, n - 1) * Factor(xs, m, n - 1, q)
  {
  }

  lemma MulSwap(p: real, a: real, b: real)
    ensures p * b * a == p * a * b
  {
    assert p * b * a == p * (b * a);
    assert p * a * b == p * (a * b);
  }

  /** The partial sums agree before and after the exchange, once both exchanged terms (or neither) are in. */
  lemma {:induction false} SwapPartialSum(xs: seq<real>, fs: seq<real>, q: real, k: nat, n: nat)
    requires k + 1 < |xs| <= |fs| && n <= |xs| && n != k + 1
    requires Distinct(xs)
    ensures Distinct(SwapAt(xs, k))
    ensures PartialSum(SwapAt(xs, k), SwapAt(fs, k), q, n) == PartialSum(xs, fs, q, n)
  {
    SwapDistinct(xs, k);
    if n == k + 2 {
      SwapPartialSum(xs, fs, q, k, k);
      SwapTerm(xs, fs, q, k, k);
      SwapTerm(xs, fs, q, k, k + 1);
    } else if n > 0 {
      SwapPartialSum(xs, fs, q, k, n - 1);
      SwapTerm(xs, fs, q, k, n - 1);
    }
  }

  /** The term of a node is the same wherever the exchange moves it. */
  lemma SwapTerm(xs: seq<real>, fs: seq<real>, q: real, k: nat, m: nat)
    requires k + 1 < |xs| <= |fs| && m < |xs|
    requires Distinct(xs)
    ensures Distinct(SwapAt(xs, k))
    ensures Term(SwapAt(xs, k), SwapAt(fs, k), Moved(k, m), q) == Term(xs, fs, m, q)
  {
    SwapBasisUpTo(xs, k, m, q, |xs|);
    assert SwapAt(fs, k)[Moved(k, m)] == fs[m];
  }

  /** Exchanging two neighbouring samples, each node with its value, leaves the interpolated value unchanged. */
  lemma SwapNodes(xs: seq<real>, fs: seq<real>, q: real, k: nat)
    requires k + 1 < |xs| <= |fs|
    requires Distinct(xs)
    ensures Distinct(SwapAt(xs, k))
    ensures Interpolation(SwapAt(xs, k), SwapAt(fs, k), q) == Interpolation(xs, fs, q)
  {
    SwapPartialSum(xs, fs, q, k, |xs|);
  }

  /** `s` after exchanging neighbours at each position of `swaps` in turn. */
  function Swapped<T>(s: seq<T>, swaps: seq<nat>): (r: seq<T>)
    requires forall i :: 0 <= i < |swaps| ==> swaps[i] + 1 < |s|
    ensures |r| == |s|
    decreases |swaps|
  {
    if swaps == [] then s else Swapped(SwapAt(s, swaps[0]), swaps[1..])
  }

  /**
   * The order of the samples does not matter: any reordering made of a
   * sequence of neighbour exchanges gives the same value.
   */
  lemma {:induction false} OrderIndependent(xs: seq<real>, fs: seq<real>, q: real, swaps: seq<nat>)
    requires |xs| <= |fs|
    requires Distinct(xs)
    requires forall i :: 0 <= i < |swaps| ==> swaps[i] + 1 < |xs|
    ensures Distinct(Swapped(xs, swaps))
    ensures Interpolation(Swapped(xs, swaps), Swapped(fs, swaps), q) == Interpolation(xs, fs, q)
    decreases |swaps|
  {
    if swaps != [] {
      SwapNodes(xs, fs, q, swaps[0]);
      OrderIndependent(SwapAt(xs, swaps[0]), SwapAt(fs, swaps[0]), q, swaps[1..]);
    }
  }

  /**
   * A repeated node is outside the precondition: it yields a pair k != j whose
   * divisor x[k] - x[j] is zero, which the program divides by without a check.
   */
  lemma RepeatedNodeDividesByZero(xs: seq<real>)
    requires !Distinct(xs)
    ensures exists k, j :: 0 <= k < |xs| && 0 <= j < |xs| && k != j && xs[k] - xs[j] == 0.0
  {
    var i, j :| 0 <= i < j < |xs| && xs[i] == xs[j];
    assert xs[i] - xs[j] == 0.0;
  }

  /** The points (0,1), (1,2), (2,5) lie on y = x^2 + 1; at x = 3 the interpolation gives 10. */
  lemma ParabolaScenario()
    ensures Distinct([0.0, 1.0, 2.0])
    ensures Interpolation([0.0, 1.0, 2.0], [1.0, 2.0, 5.0], 3.0) == 10.0
  {
    var xs, fs := [0.0, 1.0, 2.0], [1.0, 2.0, 5.0];
    assert Basis(xs, 0, 3.0) == 1.0 by {
      assert BasisUpTo(xs, 0, 3.0, 1) == 1.0;
      assert BasisUpTo(xs, 0, 3.0, 2) == 2.0 / -1.0;
      assert BasisUpTo(xs, 0, 3.0, 3) == (2.0 / -1.0) * (1.0 / -2.0);
    }
    assert Basis(xs, 1, 3.0) == -3.0 by {
      assert BasisUpTo(xs, 1, 3.0, 1) == 3.0 / 1.0;
      assert BasisUpTo(xs, 1, 3.0, 2) == 3.0;
      assert BasisUpTo(xs, 1, 3.0, 3) == 3.0 * (1.0 / -1.0);
    }
    assert Basis(xs, 2, 3.0) == 3.0 by {
      assert BasisUpTo(xs, 2, 3.0, 1) == 3.0 / 2.0;
      assert BasisUpTo(xs, 2, 3.0, 2) == (3.0 / 2.0) * (2.0 / 1.0);
      assert BasisUpTo(xs, 2, 3.0, 3) == 3.0;
    }
    assert PartialSum(xs, fs, 3.0, 1) == 1.0;
    assert PartialSum(xs, fs, 3.0, 2) == 1.0 + 2.0 * -3.0;
    assert PartialSum(xs, fs, 3.0, 3) == -5.0 + 5.0 * 3.0;
  }

  /** The points (0,0), (1,1) lie on y = x; at x = 0.5 the interpolation gives 0.5. */
  lemma LineScenario()
    ensures Distinct([0.0, 1.0])
    ensures Interpolation([0.0, 1.0], [0.0, 1.0], 0.5) == 0.5
  {
    TwoNodes([0.0, 1.0], [0.0, 1.0], 0.5);
  }
}
