/** Erasing marked elements of a body: `compact_body`. */
module Compaction {
  import opened Words
  import opened Ir

  /** How many of the first `n` elements are kept: where element `n` goes. */
  function Pos(dead: seq<bool>, n: nat): (k: nat)
    requires n <= |dead|
    ensures k <= n
  {
    if n == 0 then 0 else Pos(dead, n - 1) + (if dead[n - 1] then 0 else 1)
  }

  /** The kept elements among the first `n`, in order. */
  function Kept<T>(xs: seq<T>, dead: seq<bool>, n: nat): (out: seq<T>)
    requires n <= |xs| == |dead|
    ensures |out| == Pos(dead, n)
  {
    if n == 0 then []
    else if dead[n - 1] then Kept(xs, dead, n - 1)
    else Kept(xs, dead, n - 1) + [xs[n - 1]]
  }

  function Compact<T>(xs: seq<T>, dead: seq<bool>): seq<T>
    requires |xs| == |dead|
  {
    Kept(xs, dead, |xs|)
  }

  lemma {:induction false} PosMonotone(dead: seq<bool>, i: nat, j: nat)
    requires i <= j <= |dead|
    ensures Pos(dead, i) <= Pos(dead, j)
    ensures i < j && !dead[i] ==> Pos(dead, i) < Pos(dead, j)
    decreases j
  {
    if i < j {
      PosMonotone(dead, i, j - 1);
    }
  }

  lemma {:induction false} KeptPrefix<T>(xs: seq<T>, dead: seq<bool>, i: nat, n: nat)
    requires i < n <= |xs| == |dead| && !dead[i]
    ensures Pos(dead, i) < Pos(dead, n)
    ensures Kept(xs, dead, n)[Pos(dead, i)] == xs[i]
    decreases n
  {
    if i < n - 1 {
      KeptPrefix(xs, dead, i, n - 1);
    }
  }

  lemma CompactAt<T>(xs: seq<T>, dead: seq<bool>, i: nat)
    requires |xs| == |dead| && i < |xs| && !dead[i]
    ensures Pos(dead, i) < |Compact(xs, dead)|
    ensures Compact(xs, dead)[Pos(dead, i)] == xs[i]
  {
    KeptPrefix(xs, dead, i, |xs|);
  }

  /** Every position of the result comes from a kept element. */
  lemma {:induction false} KeptOrigin<T>(xs: seq<T>, dead: seq<bool>, n: nat, k: nat) returns (i: nat)
    requires n <= |xs| == |dead| && k < Pos(dead, n)
    ensures i < n && !dead[i] && Pos(dead, i) == k && Kept(xs, dead, n)[k] == xs[i]
    decreases n
  {
    if !dead[n - 1] && k == Pos(dead, n - 1) {
      i := n - 1;
    } else {
      i := KeptOrigin(xs, dead, n - 1, k);
    }
  }

  lemma {:induction false} NothingDead<T>(xs: seq<T>, dead: seq<bool>, n: nat)
    requires n <= |xs| == |dead|
    requires forall i :: 0 <= i < n ==> !dead[i]
    ensures Pos(dead, n) == n && Kept(xs, dead, n) == xs[..n]
  {
    if n > 0 {
      NothingDead(xs, dead, n - 1);
    }
  }

  lemma KeptNone<T>(xs: seq<T>, dead: seq<bool>)
    requires |xs| == |dead|
    ensures Kept(xs, dead, 0) == []
  {
  }

  lemma KeptNext<T>(xs: seq<T>, dead: seq<bool>, i: nat)
    requires i < |xs| == |dead|
    ensures |Kept(xs, dead, i)| == Pos(dead, i)
    ensures Kept(xs, dead, i + 1) == Kept(xs, dead, i) + (if dead[i] then [] else [xs[i]])
  {
  }
}
