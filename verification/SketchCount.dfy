/** How many sketches a run needs, and when the number that the code allots suffices. */
module SketchCount {
  import opened Words
  import opened Connectivity
  import opened Cuts
  import opened Rounds
  import opened Runs

  function Pow3(k: nat): (r: nat)
    ensures r >= 1
  {
    if k == 0 then 1 else 3 * Pow3(k - 1)
  }

  /** `count` is the integer part of log n to the base 3/2: the number of sketches
      that a supernode of an `n`-node graph gets. */
  ghost predicate IsSketchCount(n: nat, count: nat) {
    Pow3(count) <= n * Pow2(count) && n * Pow2(count + 1) < Pow3(count + 1)
  }

  lemma {:induction false} Pow3Grows(k: nat)
    ensures (k + 2) * Pow2(k) <= 2 * Pow3(k)
  {
    if k > 0 {
      Pow3Grows(k - 1);
      var p := Pow2(k - 1);
      assert (k + 2) * (2 * p) == 2 * ((k + 1) * p) + 2 * p;
      assert (k + 1) * p == k * p + p;
    }
  }

  lemma CountBounded(n: nat, k: nat)
    requires Pow3(k) <= n * Pow2(k)
    ensures k + 2 <= 2 * n
  {
    hide Pow2, Pow3;
    Pow3Grows(k);
    if 2 * n < k + 2 {
      LessTimes(2 * n, k + 2, Pow2(k));
    }
  }

  lemma LessTimes(x: nat, y: nat, p: nat)
    requires x < y && p > 0
    ensures x * p < y * p
  {
    assert y * p == x * p + (y - x) * p;
  }

  /** Every positive number of nodes gets a number of sketches. */
  lemma {:induction false} CountExists(n: nat, k: nat) returns (count: nat)
    requires n > 0 && Pow3(k) <= n * Pow2(k)
    ensures IsSketchCount(n, count)
    decreases 2 * n - k
  {
    count := k;
    if Pow3(k + 1) <= n * Pow2(k + 1) {
      CountBounded(n, k + 1);
      count := CountExists(n, k + 1);
    }
  }

  /** And no other. */
  lemma {:induction false} CountUnique(n: nat, k: nat, count: nat)
    requires IsSketchCount(n, k) && IsSketchCount(n, count)
    ensures k == count
  {
    if k < count {
      CountBelow(n, k + 1, count);
    } else if count < k {
      CountBelow(n, count + 1, k);
    }
  }

  lemma {:induction false} CountBelow(n: nat, k: nat, count: nat)
    requires k <= count && Pow3(count) <= n * Pow2(count)
    ensures Pow3(k) <= n * Pow2(k)
    decreases count
  {
    if k < count {
      assert n * Pow2(count) == 2 * (n * Pow2(count - 1));
      CountBelow(n, k, count - 1);
    }
  }

  lemma {:induction false} Pow3Bound(k: nat)
    requires k >= 2
    ensures 3 * Pow3(k) <= 2 * Pow2(k) * Pow2(k)
  {
    if k > 2 {
      Pow3Bound(k - 1);
      var p := Pow2(k - 1);
      assert Pow2(k) * Pow2(k) == 4 * (p * p);
    } else {
      assert Pow3(2) == 9 && Pow2(2) == 4;
    }
  }

  lemma SmallCounts(n: nat)
    requires n >= 3
    ensures !IsSketchCount(n, 0) && !IsSketchCount(n, 1)
  {
    assert Pow2(1) == 2 && Pow3(1) == 3 && Pow2(2) == 4 && Pow3(2) == 9;
  }

  /** From three nodes on, the sketches outnumber the possible doublings. */
  lemma CountExceedsLog(n: nat, count: nat)
    requires n >= 3 && IsSketchCount(n, count)
    ensures Pow2(count) > n
  {
    SmallCounts(n);
    Pow3Bound(count);
    Squeeze(n, Pow2(count), Pow3(count));
  }

  lemma Squeeze(n: nat, p: nat, t: nat)
    requires n * (2 * p) < 3 * t && 3 * t <= 2 * p * p
    ensures p > n
  {
    assert p * (2 * p) == 2 * p * p;
    if p <= n {
      MulMono(p, n, 2 * p);
    }
  }

  lemma MulMono(x: nat, y: nat, z: nat)
    requires x <= y
    ensures x * z <= y * z
  {
  }

  /** The largest component has at most `n` nodes. */
  lemma {:induction false} BoundedSize(s: set<nat>, n: nat)
    requires forall v | v in s :: v < n
    ensures |s| <= n
  {
    if n > 0 {
      BoundedSize(s - {n - 1}, n - 1);
    } else {
      assert s == {};
    }
  }

  /** Whether a query over `n` nodes must run out of samples, when none fails: only
      a single node, which has no sketch, and two joined nodes, which have one. */
  ghost predicate TooFewSketches(edges: set<u64>, n: nat) {
    n == 1 || (n == 2 && edges != {})
  }

  lemma NeverOutOfQueries(edges: set<u64>, n: nat, count: nat)
    requires n >= 3 && IsSketchCount(n, count)
    ensures !BigComponent(edges, n, count)
  {
    CountExceedsLog(n, count);
    forall v | 0 <= v < n
      ensures |Component(Decoded(edges), n, v)| < Pow2(count)
    {
      BoundedSize(Component(Decoded(edges), n, v), n);
    }
  }

  lemma OneNode(count: nat)
    requires IsSketchCount(1, count)
    ensures count == 0
  {
    if count > 0 {
      assert Pow3(1) == 3 && Pow2(1) == 2;
      if count >= 2 {
        Pow3AtLeast(count);
      }
    }
  }

  /** Two nodes get one sketch, and no edge means no component of two nodes. */
  lemma TwoNodes(edges: set<u64>)
    ensures IsSketchCount(2, 1) && forall count: nat :: IsSketchCount(2, count) ==> count == 1
    ensures edges == {} ==> !BigComponent(edges, 2, 1)
  {
    assert Pow2(1) == 2 && Pow3(1) == 3 && Pow2(2) == 4 && Pow3(2) == 9 && Pow2(0) == 1 && Pow3(0) == 1;
    forall count: nat | IsSketchCount(2, count)
      ensures count == 1
    {
      if count >= 2 {
        Pow3AtLeast(count);
      }
    }
    if edges == {} {
      forall v | 0 <= v < 2
        ensures |Component(Decoded(edges), 2, v)| < Pow2(1)
      {
        forall u | u in Component(Decoded(edges), 2, v)
          ensures u == v
        {
          ClosedReach(Decoded(edges), {v}, v, u);
        }
        SubsetSize(Component(Decoded(edges), 2, v), {v});
      }
    }
  }

  lemma {:induction false} Pow3AtLeast(k: nat)
    requires k >= 2
    ensures Pow3(k) > 2 * Pow2(k)
  {
    if k > 2 {
      Pow3AtLeast(k - 1);
    } else {
      assert Pow3(2) == 9 && Pow2(2) == 4;
    }
  }

  /** Exactly when the sketches suffice. A run that returns on a graph with edges
      made two rounds; one that runs out had a component of 2^count nodes. */
  lemma EnoughSketches(edges: set<u64>, n: nat, count: nat)
    requires n > 0 && IsSketchCount(n, count)
    ensures TooFewSketches(edges, n) ==> count == 0 || (count == 1 && edges != {})
    ensures !TooFewSketches(edges, n) ==> !BigComponent(edges, n, count)
  {
    if n == 1 {
      OneNode(count);
    } else if n == 2 {
      TwoNodes(edges);
    } else {
      NeverOutOfQueries(edges, n, count);
    }
  }
}
