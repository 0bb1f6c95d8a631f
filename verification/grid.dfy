/**
 Row-major enumeration of a nested loop. The outer loop runs over `xs` and
 the inner loop makes `k` steps per element, so step `i` of the whole run
 belongs to outer element `i / k` and is inner step `i % k`. Both are defined
 here by peeling off one outer round at a time, which is how the loops run,
 and the number of steps is `Times(|xs|, k)`, a product built the same way.
 */
module Grid {

  /** `n` rounds of `k` steps each. */
  function Times(n: nat, k: nat): (r: nat)
    ensures n == 0 || k == 0 <==> r == 0
    decreases n
  {
    if n == 0 then 0 else k + Times(n - 1, k)
  }

  /** Times is the product n * k. */
  lemma {:induction false} TimesIsProduct(n: nat, k: nat)
    ensures Times(n, k) == n * k
    decreases n
  {
    if n > 0 {
      TimesIsProduct(n - 1, k);
      assert n * k == k + (n - 1) * k;
    }
  }

  /** The outer element that step `i` belongs to. */
  function Outer<T>(xs: seq<T>, k: nat, i: nat): (x: T)
    requires i < Times(|xs|, k)
    ensures x in xs
    decreases |xs|
  {
    if i < k then xs[0]
    else Outer(xs[1..], k, i - k)
  }

  /** The element of `ys` that step `i` visits, when the inner loop runs over `ys`
      once for each of `n` outer rounds. */
  function Inner<T>(ys: seq<T>, n: nat, i: nat): (y: T)
    requires i < Times(n, |ys|)
    ensures y in ys
    decreases n
  {
    if i < |ys| then ys[i]
    else Inner(ys, n - 1, i - |ys|)
  }

  /** Step number of inner step `t` of outer round `j`, with `k` steps per round. */
  function Slot(j: nat, k: nat, t: nat): nat {
    Times(j, k) + t
  }

  /** Step `Slot(j, k, t)` of the run is inner step `t` of outer element `j`. */
  lemma {:induction false} OuterAt<T>(xs: seq<T>, k: nat, j: nat, t: nat)
    requires j < |xs| && t < k
    ensures Slot(j, k, t) < Times(|xs|, k) && Outer(xs, k, Slot(j, k, t)) == xs[j]
    decreases j
  {
    if j > 0 {
      OuterAt(xs[1..], k, j - 1, t);
    }
  }

  /** Step `Slot(j, |ys|, t)` of the run visits `ys[t]`. */
  lemma {:induction false} InnerAt<T>(ys: seq<T>, n: nat, j: nat, t: nat)
    requires j < n && t < |ys|
    ensures Slot(j, |ys|, t) < Times(n, |ys|) && Inner(ys, n, Slot(j, |ys|, t)) == ys[t]
    decreases j
  {
    if j > 0 {
      InnerAt(ys, n - 1, j - 1, t);
    }
  }

  /** Rounds further along start later: round `j` ends before round `j2` begins. */
  lemma {:induction false} TimesGrows(j: nat, j2: nat, k: nat)
    requires j < j2
    ensures Times(j, k) + k <= Times(j2, k)
    decreases j2
  {
    if j + 1 < j2 {
      TimesGrows(j, j2 - 1, k);
    }
  }

  /** Distinct (round, step) pairs occupy distinct steps of the run. */
  lemma SlotInjective(j: nat, t: nat, j2: nat, t2: nat, k: nat)
    requires t < k && t2 < k
    requires Slot(j, k, t) == Slot(j2, k, t2)
    ensures j == j2 && t == t2
  {
    if j < j2 {
      TimesGrows(j, j2, k);
    } else if j2 < j {
      TimesGrows(j2, j, k);
    }
  }

  /** Every step of a run of `n` rounds of `k` steps is some step of some round. */
  lemma {:induction false} SlotOnto(n: nat, k: nat, i: nat)
    requires i < Times(n, k)
    ensures exists j: nat, t: nat :: j < n && t < k && i == Slot(j, k, t)
    decreases n
  {
    if i < k {
      assert i == Slot(0, k, i);
    } else {
      SlotOnto(n - 1, k, i - k);
      var j: nat, t: nat :| j < n - 1 && t < k && i - k == Slot(j, k, t);
      assert i == Slot(j + 1, k, t);
    }
  }
}
