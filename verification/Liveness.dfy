/** Which locals may still be read: a definition over paths, and the equations
    over basic blocks that the dead-store pass solves. */
module Liveness {
  import opened Words
  import opened Ir
  import opened WellFormed

  /** The instruction makes the value of `l` matter. */
  predicate Marks(inst: Inst, l: Local) {
    LocalRead(inst) == Some(l) || (inst.AddrOf? && inst.local == l)
  }

  /** The instruction overwrites `l`, whose address nobody takes. */
  predicate Kills(inst: Inst, escaped: seq<bool>, l: Local) {
    inst.StoreLocal? && inst.local == l && l < |escaped| && !escaped[l]
  }

  /** Some path of at most `k` instructions from `pc` reads `l` before an
      unescaped store overwrites it. */
  ghost predicate ReadWithin(body: seq<Inst>, escaped: seq<bool>, pc: nat, l: Local, k: nat)
    decreases k
  {
    && k > 0 && pc < |body|
    && !Kills(body[pc], escaped, l)
    && (Marks(body[pc], l) || exists q: nat :: Succ(body, pc, q) && ReadWithin(body, escaped, q, l, k - 1))
  }

  ghost predicate Live(body: seq<Inst>, escaped: seq<bool>, pc: nat, l: Local) {
    exists k: nat :: ReadWithin(body, escaped, pc, l, k)
  }

  lemma LiveStep(body: seq<Inst>, escaped: seq<bool>, pc: nat, l: Local)
    requires pc < |body|
    ensures Live(body, escaped, pc, l) <==>
              !Kills(body[pc], escaped, l) &&
              (Marks(body[pc], l) || exists q: nat :: Succ(body, pc, q) && Live(body, escaped, q, l))
  {
    if Live(body, escaped, pc, l) {
      var k: nat :| ReadWithin(body, escaped, pc, l, k);
      if !Marks(body[pc], l) {
        var q: nat :| Succ(body, pc, q) && ReadWithin(body, escaped, q, l, k - 1);
        assert Live(body, escaped, q, l);
      }
    }
    if !Kills(body[pc], escaped, l) {
      if Marks(body[pc], l) {
        assert ReadWithin(body, escaped, pc, l, 1);
      } else if exists q: nat :: Succ(body, pc, q) && Live(body, escaped, q, l) {
        var q: nat :| Succ(body, pc, q) && Live(body, escaped, q, l);
        var k: nat :| ReadWithin(body, escaped, q, l, k);
        assert ReadWithin(body, escaped, pc, l, k + 1);
      }
    }
  }

  // --- basic blocks ---

  /** What the pass knows of a function: its escaped locals (the length gives
      the number of locals), the first instruction of each block, and the
      successors of each block. */
  datatype Cfg = Cfg(body: seq<Inst>, escaped: seq<bool>, leaders: seq<nat>, succs: seq<seq<nat>>)

  ghost predicate LeadersUpTo(body: seq<Inst>, leaders: seq<nat>, n: nat)
    requires n <= |body|
  {
    && |leaders| > 0 && leaders[0] == 0
    && (forall b, c :: 0 <= b < c < |leaders| ==> leaders[b] < leaders[c])
    && (forall b :: 0 < b < |leaders| ==> leaders[b] < n && body[leaders[b]].LabelMark?)
    && (forall i :: 0 < i < n && body[i].LabelMark? ==> i in leaders)
  }

  function BlockEnd(leaders: seq<nat>, size: nat, b: nat): nat
    requires b < |leaders|
  {
    if b + 1 < |leaders| then leaders[b + 1] else size
  }

  /** The successor lists are the control-flow edges out of the last instruction. */
  ghost predicate SuccsOf(body: seq<Inst>, leaders: seq<nat>, b: nat, succ: seq<nat>)
    requires LeadersUpTo(body, leaders, |body|) && b < |leaders| && |body| > 0
    requires 0 < BlockEnd(leaders, |body|, b) <= |body|
  {
    var last := BlockEnd(leaders, |body|, b) - 1;
    && (forall c :: c in succ ==> c < |leaders| && Succ(body, last, leaders[c]))
    && (forall q: nat :: Succ(body, last, q) && q < |body| ==> exists c :: c in succ && c < |leaders| && leaders[c] == q)
  }

  ghost predicate CfgOk(g: Cfg) {
    && |g.body| > 0
    && WfBody(g.body)
    && LeadersUpTo(g.body, g.leaders, |g.body|)
    && (forall b :: 0 <= b < |g.leaders| ==> 0 < BlockEnd(g.leaders, |g.body|, b) <= |g.body|)
    && |g.succs| == |g.leaders|
    && forall b :: 0 <= b < |g.leaders| ==> SuccsOf(g.body, g.leaders, b, g.succs[b])
  }

  function End(g: Cfg, b: nat): nat
    requires b < |g.leaders|
  {
    BlockEnd(g.leaders, |g.body|, b)
  }

  /** One instruction of the backward scan, for one local. */
  function Through(inst: Inst, escaped: seq<bool>, l: Local, after: bool): bool {
    if Kills(inst, escaped, l) then false else Marks(inst, l) || after
  }

  /** The backward scan over instructions `lo` to `hi`, for one local. */
  function ScanBit(g: Cfg, lo: nat, hi: nat, l: Local, out: bool): bool
    requires lo <= hi <= |g.body|
    decreases hi - lo
  {
    if lo == hi then out
    else Through(g.body[lo], g.escaped, l, ScanBit(g, lo + 1, hi, l, out))
  }

  /** One flag per block and local. */
  type Table = seq<seq<bool>>

  ghost predicate TableOk(g: Cfg, t: Table) {
    |t| == |g.leaders| && forall b :: 0 <= b < |t| ==> |t[b]| == |g.escaped|
  }

  ghost predicate OutBit(g: Cfg, t: Table, b: nat, l: Local)
    requires CfgOk(g) && TableOk(g, t) && b < |g.leaders| && l < |g.escaped|
  {
    exists c :: c in g.succs[b] && t[c][l]
  }

  /** The right-hand side of the equation for block `b`. */
  ghost predicate InBit(g: Cfg, t: Table, b: nat, l: Local)
    requires CfgOk(g) && TableOk(g, t) && b < |g.leaders| && l < |g.escaped|
  {
    BlockBounds(g, b);
    ScanBit(g, g.leaders[b], End(g, b), l, OutBit(g, t, b, l))
  }

  lemma NotBetween(leaders: seq<nat>, b: nat, i: nat, size: nat)
    requires forall c, d :: 0 <= c < d < |leaders| ==> leaders[c] < leaders[d]
    requires b < |leaders| && i in leaders
    ensures !(leaders[b] < i < BlockEnd(leaders, size, b))
  {
    var c :| 0 <= c < |leaders| && leaders[c] == i;
    if b < c {
      assert b + 1 == c || leaders[b + 1] < leaders[c];
    } else {
      assert b == c || leaders[c] < leaders[b];
    }
  }

  lemma BlockBounds(g: Cfg, b: nat)
    requires CfgOk(g) && b < |g.leaders|
    ensures g.leaders[b] < End(g, b) <= |g.body|
    ensures forall i :: g.leaders[b] < i < End(g, b) ==> !g.body[i].LabelMark?
    ensures forall i :: g.leaders[b] <= i < End(g, b) - 1 ==> !IsTerminator(g.body[i])
  {
    forall i | 0 < i < |g.body| && g.body[i].LabelMark?
      ensures !(g.leaders[b] < i < End(g, b))
    {
      assert i in g.leaders;
      NotBetween(g.leaders, b, i, |g.body|);
    }
    forall i | g.leaders[b] <= i < End(g, b) - 1
      ensures !IsTerminator(g.body[i])
    {
      assert !g.body[i + 1].LabelMark?;
    }
  }

  lemma {:induction false} ScanMonotone(g: Cfg, lo: nat, hi: nat, l: Local, out: bool, out': bool)
    requires lo <= hi <= |g.body| && (out ==> out')
    ensures ScanBit(g, lo, hi, l, out) ==> ScanBit(g, lo, hi, l, out')
    decreases hi - lo
  {
    if lo < hi {
      ScanMonotone(g, lo + 1, hi, l, out, out');
    }
  }

  /** The successors of a block are where its last instruction leads. */
  lemma BlockEdges(g: Cfg, b: nat)
    requires CfgOk(g) && b < |g.leaders|
    ensures 0 < End(g, b) <= |g.body| && |g.succs| == |g.leaders|
    ensures var last := End(g, b) - 1;
      && (forall c :: c in g.succs[b] ==> c < |g.leaders| && Succ(g.body, last, g.leaders[c]))
      && (forall q: nat :: Succ(g.body, last, q) && q < |g.body| ==>
            exists c :: c in g.succs[b] && c < |g.leaders| && g.leaders[c] == q)
  {
    assert SuccsOf(g.body, g.leaders, b, g.succs[b]);
  }

  lemma EdgeTo(g: Cfg, b: nat, q: nat) returns (c: nat)
    requires CfgOk(g) && b < |g.leaders| && 0 < End(g, b) <= |g.body|
    requires Succ(g.body, End(g, b) - 1, q) && q < |g.body|
    ensures |g.succs| == |g.leaders| && c in g.succs[b] && c < |g.leaders| && g.leaders[c] == q
  {
    var last := End(g, b) - 1;
    assert SuccsOf(g.body, g.leaders, b, g.succs[b]);
    assert Succ(g.body, last, q);
    c :| c in g.succs[b] && c < |g.leaders| && g.leaders[c] == q;
  }

  /** A table that only claims live locals still does after a scan. */
  lemma {:induction false} ScanSound(g: Cfg, t: Table, b: nat, pc: nat, l: Local)
    requires CfgOk(g) && TableOk(g, t) && b < |g.leaders| && l < |g.escaped|
    requires g.leaders[b] <= pc < End(g, b) <= |g.body|
    requires forall c :: 0 <= c < |t| && t[c][l] ==> Live(g.body, g.escaped, g.leaders[c], l)
    requires ScanBit(g, pc, End(g, b), l, OutBit(g, t, b, l))
    ensures Live(g.body, g.escaped, pc, l)
    decreases End(g, b) - pc
  {
    hide CfgOk;
    BlockBounds(g, b);
    BlockEdges(g, b);
    LiveStep(g.body, g.escaped, pc, l);
    if !Marks(g.body[pc], l) {
      if pc + 1 < End(g, b) {
        ScanSound(g, t, b, pc + 1, l);
        assert Succ(g.body, pc, pc + 1);
      } else {
        var c :| c in g.succs[b] && t[c][l];
        assert Succ(g.body, pc, g.leaders[c]);
      }
    }
  }

  /** A table that satisfies the equations for `l` misses no path. */
  lemma {:induction false} ScanComplete(g: Cfg, t: Table, b: nat, pc: nat, l: Local, k: nat)
    requires CfgOk(g) && TableOk(g, t) && b < |g.leaders| && l < |g.escaped|
    requires g.leaders[b] <= pc < End(g, b) <= |g.body|
    requires forall c :: 0 <= c < |t| && InBit(g, t, c, l) ==> t[c][l]
    requires ReadWithin(g.body, g.escaped, pc, l, k)
    ensures ScanBit(g, pc, End(g, b), l, OutBit(g, t, b, l))
    decreases k
  {
    hide CfgOk;
    BlockBounds(g, b);
    BlockEdges(g, b);
    if !Marks(g.body[pc], l) {
      var q: nat :| Succ(g.body, pc, q) && ReadWithin(g.body, g.escaped, q, l, k - 1);
      if pc + 1 < End(g, b) {
        assert q == pc + 1;
        ScanComplete(g, t, b, pc + 1, l, k - 1);
      } else {
        var c := EdgeTo(g, b, q);
        BlockBounds(g, c);
        ScanComplete(g, t, c, q, l, k - 1);
        assert InBit(g, t, c, l);
        assert OutBit(g, t, b, l);
      }
    }
  }

  /** The table holds exactly the live locals at every block start. */
  ghost predicate Exact(g: Cfg, t: Table)
    requires CfgOk(g) && TableOk(g, t)
  {
    forall b, l :: 0 <= b < |t| && 0 <= l < |g.escaped| ==>
      (t[b][l] <==> Live(g.body, g.escaped, g.leaders[b], l))
  }

  /** With an exact table the scan is exact everywhere. */
  lemma ScanExact(g: Cfg, t: Table, b: nat, pc: nat, l: Local)
    requires CfgOk(g) && TableOk(g, t) && Exact(g, t) && b < |g.leaders| && l < |g.escaped|
    requires g.leaders[b] <= pc < End(g, b) <= |g.body|
    ensures ScanBit(g, pc, End(g, b), l, OutBit(g, t, b, l)) <==> Live(g.body, g.escaped, pc, l)
  {
    forall c | 0 <= c < |t| && InBit(g, t, c, l)
      ensures t[c][l]
    {
      BlockBounds(g, c);
      ScanSound(g, t, c, g.leaders[c], l);
    }
    if Live(g.body, g.escaped, pc, l) {
      var k: nat :| ReadWithin(g.body, g.escaped, pc, l, k);
      ScanComplete(g, t, b, pc, l, k);
    }
    if ScanBit(g, pc, End(g, b), l, OutBit(g, t, b, l)) {
      ScanSound(g, t, b, pc, l);
    }
  }

  // --- how many sweeps are enough ---

  /** The table after `k` simultaneous updates of all blocks. */
  ghost predicate After(g: Cfg, k: nat, b: nat, l: Local)
    requires CfgOk(g) && b < |g.leaders| && l < |g.escaped|
    decreases k
  {
    k > 0 && (
      BlockBounds(g, b);
      ScanBit(g, g.leaders[b], End(g, b), l, exists c :: c in g.succs[b] && c < |g.leaders| && After(g, k - 1, c, l)))
  }

  ghost function AfterSet(g: Cfg, k: nat, l: Local): set<nat>
    requires CfgOk(g) && l < |g.escaped|
  {
    set b | 0 <= b < |g.leaders| && After(g, k, b, l)
  }

  lemma {:induction false} AfterStep(g: Cfg, j: nat, k: nat, b: nat, l: Local)
    requires CfgOk(g) && b < |g.leaders| && l < |g.escaped|
    requires AfterSet(g, j, l) <= AfterSet(g, k, l)
    ensures After(g, j + 1, b, l) ==> After(g, k + 1, b, l)
  {
    hide CfgOk;
    BlockBounds(g, b);
    BlockEdges(g, b);
    forall c: nat | c in g.succs[b] && c < |g.leaders| && After(g, j, c, l)
      ensures After(g, k, c, l)
    {
      assert c in AfterSet(g, j, l);
    }
    ScanMonotone(g, g.leaders[b], End(g, b), l,
                 exists c :: c in g.succs[b] && c < |g.leaders| && After(g, j, c, l),
                 exists c :: c in g.succs[b] && c < |g.leaders| && After(g, k, c, l));
  }

  lemma {:induction false} AfterGrows(g: Cfg, k: nat, l: Local)
    requires CfgOk(g) && l < |g.escaped|
    ensures AfterSet(g, k, l) <= AfterSet(g, k + 1, l)
  {
    hide CfgOk;
    if k > 0 {
      AfterGrows(g, k - 1, l);
      forall b: nat | b < |g.leaders| && After(g, k, b, l)
        ensures After(g, k + 1, b, l)
      {
        AfterStep(g, k - 1, k, b, l);
      }
    }
  }

  lemma AfterStable(g: Cfg, k: nat, l: Local)
    requires CfgOk(g) && l < |g.escaped|
    requires AfterSet(g, k, l) == AfterSet(g, k + 1, l)
    ensures AfterSet(g, k + 1, l) == AfterSet(g, k + 2, l)
  {
    hide CfgOk;
    AfterGrows(g, k + 1, l);
    var k' := k + 2;
    forall b: nat | b < |g.leaders| && After(g, k', b, l)
      ensures After(g, k + 1, b, l)
    {
      AfterStep(g, k + 1, k, b, l);
    }
  }

  /** Until it is stable, the set grows with every update. */
  lemma {:induction false} AfterCount(g: Cfg, k: nat, l: Local)
    requires CfgOk(g) && l < |g.escaped|
    ensures AfterSet(g, k, l) == AfterSet(g, k + 1, l) || |AfterSet(g, k + 1, l)| >= k + 1
  {
    hide *;
    AfterGrows(g, k, l);
    var s, s' := AfterSet(g, k, l), AfterSet(g, k + 1, l);
    if s != s' {
      ProperSubsetSize(s, s');
      if k > 0 {
        AfterCount(g, k - 1, l);
        if AfterSet(g, k - 1, l) == s {
          AfterStable(g, k - 1, l);
        }
      }
    }
  }

  lemma {:induction false} SubsetSize<T>(a: set<T>, b: set<T>)
    requires a <= b
    ensures |a| <= |b|
  {
    assert b == a + (b - a);
  }

  lemma {:induction false} ProperSubsetSize<T>(a: set<T>, b: set<T>)
    requires a < b
    ensures |a| + 1 <= |b|
  {
    var x :| x in b && x !in a;
    assert a + {x} <= b;
    SubsetSize(a + {x}, b);
  }

  /** As many updates as there are blocks reach the least solution. */
  lemma Saturated(g: Cfg, l: Local)
    requires CfgOk(g) && l < |g.escaped|
    ensures AfterSet(g, |g.leaders|, l) == AfterSet(g, |g.leaders| + 1, l)
  {
    hide CfgOk;
    var n := |g.leaders|;
    AfterGrows(g, n, l);
    AfterCount(g, n, l);
    UpToSize(AfterSet(g, n + 1, l), n);
  }
}
