/** The liveness iteration of `remove_dead_locals`: at most 512 sweeps in place. */
module LivenessSolver {
  import opened Words
  import opened Ir
  import opened WellFormed
  import opened Liveness
  import opened BlockScan
  import opened NearReads

  lemma {:induction false} AfterLater(g: Cfg, j: nat, k: nat, l: Local)
    requires CfgOk(g) && l < |g.escaped| && j <= k
    ensures AfterSet(g, j, l) <= AfterSet(g, k, l)
    decreases k
  {
    hide *;
    if j < k {
      AfterLater(g, j, k - 1, l);
      AfterGrows(g, k - 1, l);
    }
  }

  ghost function AfterTable(g: Cfg, n: nat): (t: Table)
    requires CfgOk(g)
    ensures TableOk(g, t)
    ensures forall b, l :: 0 <= b < |t| && 0 <= l < |g.escaped| ==> (t[b][l] <==> After(g, n, b, l))
  {
    seq(|g.leaders|, b requires 0 <= b < |g.leaders| =>
      seq(|g.escaped|, l requires 0 <= l < |g.escaped| => After(g, n, b, l)))
  }

  /** Enough updates find every live local. */
  lemma AfterComplete(g: Cfg, b: nat, l: Local)
    requires CfgOk(g) && b < |g.leaders| && l < |g.escaped|
    requires Live(g.body, g.escaped, g.leaders[b], l)
    ensures After(g, |g.leaders|, b, l)
  {
    hide CfgOk;
    var n := |g.leaders|;
    var t := AfterTable(g, n);
    Saturated(g, l);
    forall c: nat | c < |t| && InBit(g, t, c, l)
      ensures t[c][l]
    {
      AfterIsInBit(g, n, c, l);
      assert c in AfterSet(g, n + 1, l);
    }
    var k: nat :| ReadWithin(g.body, g.escaped, g.leaders[b], l, k);
    BlockBounds(g, b);
    ScanComplete(g, t, b, g.leaders[b], l, k);
    assert InBit(g, t, b, l);
  }

  lemma AfterIsInBit(g: Cfg, n: nat, c: nat, l: Local)
    requires CfgOk(g) && c < |g.leaders| && l < |g.escaped|
    ensures InBit(g, AfterTable(g, n), c, l) <==> After(g, n + 1, c, l)
  {
    hide CfgOk;
    BlockBounds(g, c);
    BlockEdges(g, c);
    var t := AfterTable(g, n);
    assert OutBit(g, t, c, l) <==> exists d :: d in g.succs[c] && d < |g.leaders| && After(g, n, d, l);
  }

  // --- the iteration ---

  /** The state of a sweep in front of block `b`: the blocks before have been
      updated once more. */
  ghost predicate SweptUpTo(g: Cfg, t: Table, f: nat, b: nat)
    requires CfgOk(g) && TableOk(g, t)
  {
    forall c, l :: 0 <= c < |t| && 0 <= l < |g.escaped| ==> (t[c][l] <==> SweptAt(g, f + 1, b, c, l))
  }

  lemma RowSwept(g: Cfg, t: Table, f: nat, b: nat, input: seq<bool>)
    requires CfgOk(g) && TableOk(g, t) && SweptUpTo(g, t, f, b) && b < |g.leaders| && |input| == |g.escaped|
    requires forall l: nat :: l < |input| ==> (input[l] <==> InBit(g, t, b, l))
    ensures TableOk(g, t[b := input]) && SweptUpTo(g, t[b := input], f, b + 1)
  {
    hide CfgOk, Swept, SweptOut;
    var t' := t[b := input];
    forall c: nat, l: nat {:trigger SweptAt(g, f + 1, b + 1, c, l)} | c < |t'| && l < |g.escaped|
      ensures t'[c][l] <==> SweptAt(g, f + 1, b + 1, c, l)
    {
      if c == b {
        assert input[l] <==> InBit(g, t, b, l);
        InSwept(g, t, f, b, l);
      } else {
        assert t[c][l] <==> SweptAt(g, f + 1, b, c, l);
      }
    }
  }

  lemma InSwept(g: Cfg, t: Table, f: nat, b: nat, l: Local)
    requires CfgOk(g) && TableOk(g, t) && SweptUpTo(g, t, f, b) && b < |g.leaders| && l < |g.escaped|
    ensures InBit(g, t, b, l) <==> Swept(g, f + 1, b, l)
  {
    hide CfgOk, Swept, SweptAt;
    SweptIs(g, f + 1, b, l);
    OutSwept(g, t, f, b, b, l);
  }

  /** The union over the successors, read from such a table. */
  lemma OutSwept(g: Cfg, t: Table, f: nat, at: nat, b: nat, l: Local)
    requires CfgOk(g) && TableOk(g, t) && SweptUpTo(g, t, f, at) && b < |g.leaders| && l < |g.escaped|
    ensures OutBit(g, t, b, l) <==> SweptOut(g, f + 1, at, b, l)
  {
    hide CfgOk, Swept, SweptAt;
    BlockEdges(g, b);
    forall c | c in g.succs[b]
      ensures t[c][l] <==> SweptAt(g, f + 1, at, c, l)
    {
    }
  }

  /** One sweep over all blocks, updating the table in place. */
  method Sweep(g: Cfg, was: Table, ghost f: nat) returns (t: Table, converged: bool)
    requires CfgOk(g) && TableOk(g, was) && IsSwept(g, was, f)
    ensures TableOk(g, t) && IsSwept(g, t, f + 1)
    ensures converged ==> t == was
  {
    hide CfgOk, SweptUpTo, IsSwept;
    t, converged := was, true;
    SweepStart(g, was, f);
    var b := 0;
    while b < |g.leaders|
      invariant b <= |g.leaders| && TableOk(g, t) && SweptUpTo(g, t, f, b)
      invariant converged ==> t == was
    {
      BlockBounds(g, b);
      var out := LiveOut(g, t, b);
      var input, _ := ScanBlock(g, b, out);
      RowSwept(g, t, f, b, input);
      if input != t[b] {
        t := t[b := input];
        converged := false;
      } else {
        assert t[b := input] == t;
      }
      b := b + 1;
    }
    SweepEnd(g, t, f);
  }

  lemma SweepStart(g: Cfg, t: Table, f: nat)
    requires CfgOk(g) && TableOk(g, t) && IsSwept(g, t, f)
    ensures SweptUpTo(g, t, f, 0)
  {
    hide CfgOk, Swept;
  }

  lemma SweepEnd(g: Cfg, t: Table, f: nat)
    requires CfgOk(g) && TableOk(g, t) && SweptUpTo(g, t, f, |g.leaders|)
    ensures IsSwept(g, t, f + 1)
  {
    hide CfgOk, Swept;
    forall b: nat, l: nat | b < |t| && l < |g.escaped|
      ensures t[b][l] <==> Swept(g, f + 1, b, l)
    {
      assert SweptAt(g, f + 1, |g.leaders|, b, l) == Swept(g, f + 1, b, l);
    }
  }

  /** The whole iteration: the table holds what 512 sweeps find, and with at most
      512 blocks that is everything. */
  method SolveLiveness(g: Cfg) returns (liveIn: Table)
    requires CfgOk(g)
    ensures TableOk(g, liveIn) && IsSwept(g, liveIn, 512)
    ensures |g.leaders| <= 512 ==> Exact(g, liveIn)
  {
    hide CfgOk, IsSwept, Exact;
    liveIn := seq(|g.leaders|, _ => seq(|g.escaped|, _ => false));
    NothingSwept(g, liveIn);
    var converged := false;
    var iteration := 0;
    while iteration < 512 && !converged
      invariant 0 <= iteration <= 512
      invariant TableOk(g, liveIn) && IsSwept(g, liveIn, iteration)
      invariant converged ==> iteration > 0 && IsSwept(g, liveIn, iteration - 1)
    {
      liveIn, converged := Sweep(g, liveIn, iteration);
      iteration := iteration + 1;
    }
    if converged {
      ConvergedStays(g, liveIn, iteration - 1, 512);
    }
    if |g.leaders| <= 512 {
      EnoughSweeps(g, liveIn);
    }
  }

  lemma NothingSwept(g: Cfg, t: Table)
    requires CfgOk(g) && t == seq(|g.leaders|, _ => seq(|g.escaped|, _ => false))
    ensures TableOk(g, t) && IsSwept(g, t, 0)
  {
    hide CfgOk;
  }

  lemma ConvergedStays(g: Cfg, t: Table, f: nat, m: nat)
    requires CfgOk(g) && TableOk(g, t) && IsSwept(g, t, f) && IsSwept(g, t, f + 1) && f <= m
    ensures IsSwept(g, t, m)
  {
    hide CfgOk, Swept;
    forall b: nat, l: nat | b < |t| && l < |g.escaped|
      ensures t[b][l] <==> Swept(g, m, b, l)
    {
      forall c: nat | c < |g.leaders|
        ensures Swept(g, f, c, l) <==> Swept(g, f + 1, c, l)
      {
        assert t[c][l] <==> Swept(g, f, c, l);
      }
      SweptStays(g, f, m, l);
      assert t[b][l] <==> Swept(g, f, b, l);
    }
  }

  /** 512 sweeps find every live local of at most 512 blocks. */
  lemma EnoughFor(g: Cfg, b: nat, l: Local)
    requires CfgOk(g) && b < |g.leaders| <= 512 && l < |g.escaped|
    ensures Swept(g, 512, b, l) <==> Live(g.body, g.escaped, g.leaders[b], l)
  {
    hide CfgOk, Swept;
    if Swept(g, 512, b, l) {
      SweptLive(g, 512, b, l);
    }
    if Live(g.body, g.escaped, g.leaders[b], l) {
      AfterComplete(g, b, l);
      AfterLater(g, |g.leaders|, 512, l);
      assert b in AfterSet(g, |g.leaders|, l);
      AfterSwept(g, 512, b, l);
    }
  }

  lemma EnoughSweeps(g: Cfg, t: Table)
    requires CfgOk(g) && TableOk(g, t) && IsSwept(g, t, 512) && |g.leaders| <= 512
    ensures Exact(g, t)
  {
    hide CfgOk, Swept, Live;
    forall b: nat, l: nat | b < |t| && l < |g.escaped|
      ensures t[b][l] <==> Live(g.body, g.escaped, g.leaders[b], l)
    {
      EnoughFor(g, b, l);
    }
  }
}
