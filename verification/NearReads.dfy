/** What a limited number of sweeps finds. A sweep visits the blocks in ascending
    order and updates the table in place, so what is known of a block in front
    travels for nothing; what is known of the block itself or of one behind costs
    one sweep. */
module NearReads {
  import opened Words
  import opened Ir
  import opened WellFormed
  import opened Liveness

  // --- over paths ---

  /** Some path of at most `k` instructions from `pc` reads `l` before an unescaped
      store overwrites it, and enters at most `f` times a block that does not lie
      in front of the one it comes from. `start` is where the present block starts. */
  ghost predicate NearFrom(body: seq<Inst>, escaped: seq<bool>, pc: nat, l: Local, start: nat, f: nat, k: nat)
    decreases k, 0
  {
    && k > 0 && pc < |body|
    && !Kills(body[pc], escaped, l)
    && (Marks(body[pc], l) || NearAfter(body, escaped, pc, l, start, f, k - 1))
  }

  /** The same behind the instruction at `pc`. */
  ghost predicate NearAfter(body: seq<Inst>, escaped: seq<bool>, pc: nat, l: Local, start: nat, f: nat, k: nat)
    requires pc < |body|
    decreases k, 2
  {
    exists q: nat :: Succ(body, pc, q) && q < |body| && NearStep(body, escaped, q, l, start, f, k)
  }

  ghost predicate NearStep(body: seq<Inst>, escaped: seq<bool>, q: nat, l: Local, start: nat, f: nat, k: nat)
    requires q < |body|
    decreases k, 1
  {
    if !body[q].LabelMark? then NearFrom(body, escaped, q, l, start, f, k)
    else if q < start then NearFrom(body, escaped, q, l, q, f, k)
    else f > 0 && NearFrom(body, escaped, q, l, q, f - 1, k)
  }

  ghost predicate Near(body: seq<Inst>, escaped: seq<bool>, pc: nat, l: Local, start: nat, f: nat) {
    exists k: nat :: NearFrom(body, escaped, pc, l, start, f, k)
  }

  lemma {:induction false} NearIsRead(body: seq<Inst>, escaped: seq<bool>, pc: nat, l: Local, start: nat, f: nat, k: nat)
    requires NearFrom(body, escaped, pc, l, start, f, k)
    ensures ReadWithin(body, escaped, pc, l, k)
    decreases k
  {
    if !Marks(body[pc], l) {
      var q: nat :| Succ(body, pc, q) && q < |body| && NearStep(body, escaped, q, l, start, f, k - 1);
      if !body[q].LabelMark? {
        NearIsRead(body, escaped, q, l, start, f, k - 1);
      } else {
        NearIsRead(body, escaped, q, l, q, if q < start then f else f - 1, k - 1);
      }
    }
  }

  // --- over sweeps ---

  /** The flag of block `b` after `f` sweeps. */
  ghost predicate Swept(g: Cfg, f: nat, b: nat, l: Local)
    requires CfgOk(g) && b < |g.leaders| && l < |g.escaped|
    decreases f, b, 2
  {
    f > 0 && (
      BlockBounds(g, b);
      ScanBit(g, g.leaders[b], End(g, b), l, SweptOut(g, f, b, b, l)))
  }

  /** The flag behind block `b` when the blocks in front of `at` have been swept
      `f` times and the others once less. */
  ghost predicate SweptOut(g: Cfg, f: nat, at: nat, b: nat, l: Local)
    requires CfgOk(g) && b < |g.leaders| && l < |g.escaped| && f > 0
    decreases f, at, 1
  {
    exists c :: c in g.succs[b] && c < |g.leaders| && SweptAt(g, f, at, c, l)
  }

  ghost predicate SweptAt(g: Cfg, f: nat, at: nat, c: nat, l: Local)
    requires CfgOk(g) && c < |g.leaders| && l < |g.escaped| && f > 0
    decreases f, at, 0
  {
    if c < at then Swept(g, f, c, l) else Swept(g, f - 1, c, l)
  }

  /** Where block `at` starts; behind the last block, where the code ends. */
  function Start(g: Cfg, at: nat): nat
    requires at <= |g.leaders|
  {
    if at < |g.leaders| then g.leaders[at] else |g.body|
  }

  /** An edge out of the last instruction of a block enters another at its label. */
  lemma EntersBlock(g: Cfg, b: nat, q: nat) returns (c: nat)
    requires CfgOk(g) && b < |g.leaders| && 0 < End(g, b) <= |g.body|
    requires Succ(g.body, End(g, b) - 1, q) && q < |g.body|
    ensures |g.succs| == |g.leaders| && c in g.succs[b] && c < |g.leaders| && g.leaders[c] == q && g.body[q].LabelMark?
  {
    c := EdgeTo(g, b, q);
    LeaderIsLabel(g, End(g, b) - 1, c);
  }

  lemma LeaderIsLabel(g: Cfg, pc: nat, c: nat)
    requires CfgOk(g) && c < |g.leaders| && pc < |g.body| && Succ(g.body, pc, g.leaders[c])
    ensures g.leaders[c] < |g.body| && g.body[g.leaders[c]].LabelMark?
  {
    hide WfBody, SuccsOf;
  }

  lemma StartOrder(g: Cfg, c: nat, at: nat)
    requires CfgOk(g) && c < |g.leaders| && at <= |g.leaders|
    ensures g.leaders[c] < Start(g, at) <==> c < at
  {
    hide WfBody, SuccsOf;
    BlockBounds(g, c);
    if at < c {
      assert g.leaders[at] < g.leaders[c];
    }
  }

  lemma {:induction false} SweptNear(g: Cfg, f: nat, at: nat, b: nat, pc: nat, l: Local) returns (k: nat)
    requires CfgOk(g) && b < |g.leaders| && at <= |g.leaders| && l < |g.escaped| && f > 0
    requires g.leaders[b] <= pc < End(g, b) <= |g.body|
    requires ScanBit(g, pc, End(g, b), l, SweptOut(g, f, at, b, l))
    ensures NearFrom(g.body, g.escaped, pc, l, Start(g, at), f - 1, k)
    decreases f, at, End(g, b) - pc
  {
    hide CfgOk, Swept, SweptOut, Start;
    BlockBounds(g, b);
    if Marks(g.body[pc], l) {
      k := 1;
    } else if pc + 1 < End(g, b) {
      k := SweptNear(g, f, at, b, pc + 1, l);
      assert Succ(g.body, pc, pc + 1) && NearStep(g.body, g.escaped, pc + 1, l, Start(g, at), f - 1, k);
      k := k + 1;
    } else {
      var c := SweptEdge(g, f, at, b, l);
      StartOrder(g, c, at);
      BlockBounds(g, c);
      var f' := if c < at then f else f - 1;
      SweptIs(g, f', c, l);
      k := SweptNear(g, f', c, c, g.leaders[c], l);
      StartIs(g, c);
      assert NearStep(g.body, g.escaped, g.leaders[c], l, Start(g, at), f - 1, k);
      k := k + 1;
    }
  }

  lemma SweptIs(g: Cfg, f: nat, b: nat, l: Local)
    requires CfgOk(g) && b < |g.leaders| && l < |g.escaped|
    ensures g.leaders[b] < End(g, b) <= |g.body|
    ensures Swept(g, f, b, l) <==> f > 0 && ScanBit(g, g.leaders[b], End(g, b), l, SweptOut(g, f, b, b, l))
  {
    hide CfgOk, SweptOut;
    BlockBounds(g, b);
  }

  lemma StartIs(g: Cfg, c: nat)
    requires c < |g.leaders|
    ensures Start(g, c) == g.leaders[c]
  {
  }

  lemma SweptEdge(g: Cfg, f: nat, at: nat, b: nat, l: Local) returns (c: nat)
    requires CfgOk(g) && b < |g.leaders| && l < |g.escaped| && f > 0 && SweptOut(g, f, at, b, l)
    ensures c < |g.leaders| && |g.succs| == |g.leaders| && c in g.succs[b] && SweptAt(g, f, at, c, l)
    ensures 0 < End(g, b) <= |g.body| && Succ(g.body, End(g, b) - 1, g.leaders[c])
    ensures g.leaders[c] < |g.body| && g.body[g.leaders[c]].LabelMark?
  {
    hide CfgOk, SweptAt;
    BlockEdges(g, b);
    c :| c in g.succs[b] && c < |g.leaders| && SweptAt(g, f, at, c, l);
    LeaderIsLabel(g, End(g, b) - 1, c);
  }

  lemma {:induction false} NearSwept(g: Cfg, f: nat, at: nat, b: nat, pc: nat, l: Local, k: nat)
    requires CfgOk(g) && b < |g.leaders| && at <= |g.leaders| && l < |g.escaped| && f > 0
    requires g.leaders[b] <= pc < End(g, b) <= |g.body|
    requires NearFrom(g.body, g.escaped, pc, l, Start(g, at), f - 1, k)
    ensures ScanBit(g, pc, End(g, b), l, SweptOut(g, f, at, b, l))
    decreases k
  {
    hide CfgOk, Swept, SweptOut, Start;
    BlockBounds(g, b);
    if !Marks(g.body[pc], l) {
      var q: nat :| Succ(g.body, pc, q) && q < |g.body| && NearStep(g.body, g.escaped, q, l, Start(g, at), f - 1, k - 1);
      if pc + 1 < End(g, b) {
        assert q == pc + 1;
        NearSwept(g, f, at, b, pc + 1, l, k - 1);
      } else {
        var c := EntersBlock(g, b, q);
        StartOrder(g, c, at);
        BlockBounds(g, c);
        StartIs(g, c);
        var f' := if c < at then f else f - 1;
        NearSwept(g, f', c, c, q, l, k - 1);
        SweptIs(g, f', c, l);
        EdgeSwept(g, f, at, b, c, l);
      }
    }
  }

  lemma EdgeSwept(g: Cfg, f: nat, at: nat, b: nat, c: nat, l: Local)
    requires CfgOk(g) && b < |g.leaders| && l < |g.escaped| && f > 0 && |g.succs| == |g.leaders|
    requires c < |g.leaders| && c in g.succs[b] && SweptAt(g, f, at, c, l)
    ensures SweptOut(g, f, at, b, l)
  {
    hide CfgOk, SweptAt;
  }

  /** What `f` sweeps find at the start of a block: exactly the reads on a path that
      enters fewer than `f` blocks not in front of the one it comes from. */
  lemma SweptMeans(g: Cfg, f: nat, b: nat, l: Local)
    requires CfgOk(g) && b < |g.leaders| && l < |g.escaped| && f > 0
    ensures Swept(g, f, b, l) <==> Near(g.body, g.escaped, g.leaders[b], l, g.leaders[b], f - 1)
  {
    hide CfgOk, Swept, SweptOut;
    SweptIs(g, f, b, l);
    if Swept(g, f, b, l) {
      var k := SweptNear(g, f, b, b, g.leaders[b], l);
    }
    if Near(g.body, g.escaped, g.leaders[b], l, g.leaders[b], f - 1) {
      var k: nat :| NearFrom(g.body, g.escaped, g.leaders[b], l, g.leaders[b], f - 1, k);
      NearSwept(g, f, b, b, g.leaders[b], l, k);
    }
  }

  // --- sweeps get better ---

  lemma {:induction false} SweptGrows(g: Cfg, f: nat, b: nat, l: Local)
    requires CfgOk(g) && b < |g.leaders| && l < |g.escaped| && Swept(g, f, b, l)
    ensures Swept(g, f + 1, b, l)
    decreases f, b
  {
    hide CfgOk, Swept, SweptOut;
    SweptIs(g, f, b, l);
    SweptIs(g, f + 1, b, l);
    if SweptOut(g, f, b, b, l) {
      var c := SweptEdge(g, f, b, b, l);
      SweptGrows(g, if c < b then f else f - 1, c, l);
      EdgeSwept(g, f + 1, b, b, c, l);
    }
    ScanMonotone(g, g.leaders[b], End(g, b), l, SweptOut(g, f, b, b, l), SweptOut(g, f + 1, b, b, l));
  }

  /** Sweeps in place find at least what simultaneous updates find. */
  lemma {:induction false} AfterSwept(g: Cfg, k: nat, b: nat, l: Local)
    requires CfgOk(g) && b < |g.leaders| && l < |g.escaped| && After(g, k, b, l)
    ensures Swept(g, k, b, l)
    decreases k
  {
    hide CfgOk, Swept, SweptOut;
    BlockBounds(g, b);
    BlockEdges(g, b);
    SweptIs(g, k, b, l);
    var out := exists c :: c in g.succs[b] && c < |g.leaders| && After(g, k - 1, c, l);
    if out {
      var c :| c in g.succs[b] && c < |g.leaders| && After(g, k - 1, c, l);
      AfterSwept(g, k - 1, c, l);
      if c < b {
        SweptGrows(g, k - 1, c, l);
      }
      EdgeSwept(g, k, b, b, c, l);
    }
    ScanMonotone(g, g.leaders[b], End(g, b), l, out, SweptOut(g, k, b, b, l));
  }

  /** What sweeps find is live. */
  lemma SweptLive(g: Cfg, f: nat, b: nat, l: Local)
    requires CfgOk(g) && b < |g.leaders| && l < |g.escaped| && Swept(g, f, b, l)
    ensures Live(g.body, g.escaped, g.leaders[b], l)
  {
    hide CfgOk, Swept, SweptOut;
    SweptIs(g, f, b, l);
    var k := SweptNear(g, f, b, b, g.leaders[b], l);
    NearIsRead(g.body, g.escaped, g.leaders[b], l, Start(g, b), f - 1, k);
  }

  /** The table holds exactly what `f` sweeps find. */
  ghost predicate IsSwept(g: Cfg, t: Table, f: nat)
    requires CfgOk(g) && TableOk(g, t)
  {
    forall b, l :: 0 <= b < |t| && 0 <= l < |g.escaped| ==> (t[b][l] <==> Swept(g, f, b, l))
  }

  /** If a sweep changes nothing, no later one does. */
  lemma {:induction false} SweptSame(g: Cfg, f: nat, b: nat, l: Local)
    requires CfgOk(g) && b < |g.leaders| && l < |g.escaped|
    requires forall c: nat :: c < |g.leaders| ==> (Swept(g, f, c, l) <==> Swept(g, f + 1, c, l))
    ensures Swept(g, f + 1, b, l) <==> Swept(g, f + 2, b, l)
    decreases b
  {
    hide CfgOk, Swept, SweptOut;
    SweptIs(g, f + 1, b, l);
    SweptIs(g, f + 2, b, l);
    if SweptOut(g, f + 2, b, b, l) {
      var c := SweptEdge(g, f + 2, b, b, l);
      if c < b {
        SweptSame(g, f, c, l);
      }
      EdgeSwept(g, f + 1, b, b, c, l);
    }
    if SweptOut(g, f + 1, b, b, l) {
      var c := SweptEdge(g, f + 1, b, b, l);
      if c < b {
        SweptSame(g, f, c, l);
      }
      EdgeSwept(g, f + 2, b, b, c, l);
    }
  }

  lemma {:induction false} SweptStays(g: Cfg, f: nat, m: nat, l: Local)
    requires CfgOk(g) && l < |g.escaped| && f <= m
    requires forall c: nat :: c < |g.leaders| ==> (Swept(g, f, c, l) <==> Swept(g, f + 1, c, l))
    ensures forall c: nat :: c < |g.leaders| ==> (Swept(g, f, c, l) <==> Swept(g, m, c, l))
    ensures forall c: nat :: c < |g.leaders| ==> (Swept(g, m, c, l) <==> Swept(g, m + 1, c, l))
    decreases m
  {
    hide CfgOk, Swept;
    if f < m {
      SweptStays(g, f, m - 1, l);
      forall c: nat | c < |g.leaders|
        ensures Swept(g, m, c, l) <==> Swept(g, m + 1, c, l)
      {
        SweptSame(g, m - 1, c, l);
      }
    }
  }
}
