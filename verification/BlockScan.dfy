/** Building the control-flow graph and scanning its blocks, as `remove_dead_locals` does. */
module BlockScan {
  import opened Words
  import opened Ir
  import opened WellFormed
  import opened Liveness

  // --- the control-flow graph ---

  method FindEscaped(body: seq<Inst>, localCount: nat) returns (escaped: seq<bool>)
    ensures |escaped| == localCount
    ensures forall l :: 0 <= l < localCount ==> (escaped[l] <==> l in AddrTaken(body))
  {
    escaped := seq(localCount, _ => false);
    for i := 0 to |body|
      invariant |escaped| == localCount
      invariant forall l :: 0 <= l < localCount ==>
                  (escaped[l] <==> exists j :: 0 <= j < i && body[j].AddrOf? && body[j].local == l)
    {
      if body[i].AddrOf? && body[i].local < localCount {
        escaped := escaped[body[i].local := true];
      }
    }
  }

  /** `blockOf` names the block each label of `body[..n]` starts. */
  ghost predicate BlocksUpTo(body: seq<Inst>, leaders: seq<nat>, blockOf: map<Label, nat>, n: nat)
    requires n <= |body|
  {
    && (forall l :: l in blockOf ==>
          blockOf[l] < |leaders| && leaders[blockOf[l]] < n && body[leaders[blockOf[l]]] == LabelMark(l))
    && (forall j :: 0 <= j < n && body[j].LabelMark? ==> body[j].id in blockOf)
  }

  /** The block a jump to `l` reaches. */
  ghost predicate Resolves(body: seq<Inst>, leaders: seq<nat>, blockOf: map<Label, nat>) {
    forall l ::
      && (l in blockOf <==> FindLabel(body, l, 0).Some?)
      && (l in blockOf ==> blockOf[l] < |leaders| && FindLabel(body, l, 0) == Some(leaders[blockOf[l]]))
  }

  lemma BlocksResolve(body: seq<Inst>, leaders: seq<nat>, blockOf: map<Label, nat>)
    requires UniqueLabels(body) && BlocksUpTo(body, leaders, blockOf, |body|)
    ensures Resolves(body, leaders, blockOf)
  {
    forall l
      ensures l in blockOf <==> FindLabel(body, l, 0).Some?
      ensures l in blockOf ==> FindLabel(body, l, 0) == Some(leaders[blockOf[l]])
    {
      if FindLabel(body, l, 0).Some? {
        assert body[FindLabel(body, l, 0).value].LabelMark?;
      }
    }
  }

  /** The state of the leader scan after the first `i` instructions. */
  ghost predicate LeadersInv(body: seq<Inst>, leaders: seq<nat>, blockOf: map<Label, nat>, i: nat)
    requires i <= |body|
  {
    && |body| > 0
    && LeadersUpTo(body, leaders, i)
    && (leaders[|leaders| - 1] < i || (i == 0 && |leaders| == 1))
    && BlocksUpTo(body, leaders, blockOf, i)
    && |leaders| == LabelCount(body, i) + (if !body[0].LabelMark? || i == 0 then 1 else 0)
  }

  method FindLeaders(body: seq<Inst>) returns (leaders: seq<nat>, blockOf: map<Label, nat>)
    requires |body| > 0 && UniqueLabels(body)
    ensures LeadersUpTo(body, leaders, |body|)
    ensures Resolves(body, leaders, blockOf)
    ensures |leaders| == BlockCount(body)
  {
    hide LeadersInv;
    leaders, blockOf := [0], map[];
    var i := 0;
    LeadersStart(body);
    while i < |body|
      invariant i <= |body| && |leaders| > 0
      invariant LeadersInv(body, leaders, blockOf, i)
    {
      if body[i].LabelMark? {
        if i == leaders[|leaders| - 1] {
          FirstLabel(body, leaders, blockOf, i);
          blockOf := blockOf[body[i].id := |leaders| - 1];
        } else {
          LeaderAdded(body, leaders, blockOf, i);
          blockOf := blockOf[body[i].id := |leaders|];
          leaders := leaders + [i];
        }
      } else {
        NotALeader(body, leaders, blockOf, i);
      }
      i := i + 1;
    }
    LeadersDone(body, leaders, blockOf);
  }

  lemma LeadersStart(body: seq<Inst>)
    requires |body| > 0
    ensures LeadersInv(body, [0], map[], 0)
  {
  }

  lemma LeadersDone(body: seq<Inst>, leaders: seq<nat>, blockOf: map<Label, nat>)
    requires |body| > 0 && UniqueLabels(body) && LeadersInv(body, leaders, blockOf, |body|)
    ensures LeadersUpTo(body, leaders, |body|)
    ensures Resolves(body, leaders, blockOf)
    ensures |leaders| == BlockCount(body)
  {
    BlocksResolve(body, leaders, blockOf);
  }

  lemma NotALeader(body: seq<Inst>, leaders: seq<nat>, blockOf: map<Label, nat>, i: nat)
    requires i < |body| && !body[i].LabelMark? && LeadersInv(body, leaders, blockOf, i)
    ensures LeadersInv(body, leaders, blockOf, i + 1)
  {
  }

  lemma FirstLabel(body: seq<Inst>, leaders: seq<nat>, blockOf: map<Label, nat>, i: nat)
    requires i < |body| && body[i].LabelMark? && LeadersInv(body, leaders, blockOf, i)
    requires i == leaders[|leaders| - 1]
    ensures LeadersInv(body, leaders, blockOf[body[i].id := |leaders| - 1], i + 1)
  {
    assert i == 0;
  }

  lemma LeaderAdded(body: seq<Inst>, leaders: seq<nat>, blockOf: map<Label, nat>, i: nat)
    requires i < |body| && body[i].LabelMark? && LeadersInv(body, leaders, blockOf, i)
    requires i != leaders[|leaders| - 1]
    ensures LeadersInv(body, leaders + [i], blockOf[body[i].id := |leaders|], i + 1)
  {
    LeaderListed(body, leaders, i);
    hide LeadersUpTo;
    BlockListed(body, leaders, blockOf, i);
  }

  lemma LeaderListed(body: seq<Inst>, leaders: seq<nat>, i: nat)
    requires i < |body| && body[i].LabelMark? && LeadersUpTo(body, leaders, i) && leaders[|leaders| - 1] < i
    ensures LeadersUpTo(body, leaders + [i], i + 1)
  {
    var ls := leaders + [i];
    assert ls[|leaders|] == i;
    forall j | 0 < j < i + 1 && body[j].LabelMark?
      ensures j in ls
    {
      if j < i {
        assert j in leaders;
      }
    }
  }

  lemma BlockListed(body: seq<Inst>, leaders: seq<nat>, blockOf: map<Label, nat>, i: nat)
    requires i < |body| && body[i].LabelMark? && BlocksUpTo(body, leaders, blockOf, i)
    ensures BlocksUpTo(body, leaders + [i], blockOf[body[i].id := |leaders|], i + 1)
  {
  }

  /** The successors of the block ending at `last`. */
  method FindSuccessors(body: seq<Inst>, leaders: seq<nat>, blockOf: map<Label, nat>, b: nat) returns (succ: seq<nat>)
    requires |body| > 0 && LeadersUpTo(body, leaders, |body|) && b < |leaders|
    requires 0 < BlockEnd(leaders, |body|, b) <= |body|
    requires Resolves(body, leaders, blockOf)
    ensures SuccsOf(body, leaders, b, succ)
  {
    hide Resolves, SuccsOf, LeadersUpTo;
    var last := BlockEnd(leaders, |body|, b) - 1;
    var inst := body[last];
    if inst.Jump? {
      succ := JumpTo(leaders, blockOf, inst.target);
      JumpLeads(body, leaders, blockOf, b);
    } else if inst.Branch? {
      var t, e := inst.thenLabel, inst.elseLabel;
      succ := JumpTo(leaders, blockOf, t);
      if e in blockOf && (t !in blockOf || blockOf[e] != blockOf[t]) {
        succ := succ + [blockOf[e]];
      }
      BranchLeads(body, leaders, blockOf, b, succ);
    } else if inst.Return? {
      succ := [];
      ReturnLeads(body, leaders, b);
    } else {
      succ := if b + 1 < |leaders| then [b + 1] else [];
      FallsThrough(body, leaders, b, succ);
    }
  }

  lemma JumpLeads(body: seq<Inst>, leaders: seq<nat>, blockOf: map<Label, nat>, b: nat)
    requires |body| > 0 && LeadersUpTo(body, leaders, |body|) && b < |leaders|
    requires 0 < BlockEnd(leaders, |body|, b) <= |body| && Resolves(body, leaders, blockOf)
    requires body[BlockEnd(leaders, |body|, b) - 1].Jump?
    ensures SuccsOf(body, leaders, b, JumpTo(leaders, blockOf, body[BlockEnd(leaders, |body|, b) - 1].target))
  {
    hide Resolves, LeadersUpTo;
    JumpCovers(body, leaders, blockOf, body[BlockEnd(leaders, |body|, b) - 1].target);
  }

  lemma ReturnLeads(body: seq<Inst>, leaders: seq<nat>, b: nat)
    requires |body| > 0 && LeadersUpTo(body, leaders, |body|) && b < |leaders|
    requires 0 < BlockEnd(leaders, |body|, b) <= |body|
    requires body[BlockEnd(leaders, |body|, b) - 1].Return?
    ensures SuccsOf(body, leaders, b, [])
  {
  }

  lemma BranchLeads(body: seq<Inst>, leaders: seq<nat>, blockOf: map<Label, nat>, b: nat, succ: seq<nat>)
    requires |body| > 0 && LeadersUpTo(body, leaders, |body|) && b < |leaders|
    requires 0 < BlockEnd(leaders, |body|, b) <= |body| && Resolves(body, leaders, blockOf)
    requires body[BlockEnd(leaders, |body|, b) - 1].Branch?
    requires var inst := body[BlockEnd(leaders, |body|, b) - 1];
      var t, e := inst.thenLabel, inst.elseLabel;
      succ == JumpTo(leaders, blockOf, t) +
                (if e in blockOf && (t !in blockOf || blockOf[e] != blockOf[t]) then [blockOf[e]] else [])
    ensures SuccsOf(body, leaders, b, succ)
  {
    var inst := body[BlockEnd(leaders, |body|, b) - 1];
    var t, e := inst.thenLabel, inst.elseLabel;
    BranchCovers(body, leaders, blockOf, t, e, succ);
    hide Resolves, LeadersUpTo;
  }

  lemma FallsThrough(body: seq<Inst>, leaders: seq<nat>, b: nat, succ: seq<nat>)
    requires |body| > 0 && LeadersUpTo(body, leaders, |body|) && b < |leaders|
    requires 0 < BlockEnd(leaders, |body|, b) <= |body|
    requires !IsTerminator(body[BlockEnd(leaders, |body|, b) - 1])
    requires succ == if b + 1 < |leaders| then [b + 1] else []
    ensures SuccsOf(body, leaders, b, succ)
  {
    if b + 1 < |leaders| {
      assert b + 1 in succ;
    }
  }

  lemma BranchCovers(body: seq<Inst>, leaders: seq<nat>, blockOf: map<Label, nat>, t: Label, e: Label, succ: seq<nat>)
    requires Resolves(body, leaders, blockOf)
    requires succ == JumpTo(leaders, blockOf, t) +
                       (if e in blockOf && (t !in blockOf || blockOf[e] != blockOf[t]) then [blockOf[e]] else [])
    ensures forall c :: c in succ ==>
              c < |leaders| && (FindLabel(body, t, 0) == Some(leaders[c]) || FindLabel(body, e, 0) == Some(leaders[c]))
    ensures FindLabel(body, t, 0).Some? ==>
              t in blockOf && blockOf[t] in succ && blockOf[t] < |leaders| && leaders[blockOf[t]] == FindLabel(body, t, 0).value
    ensures FindLabel(body, e, 0).Some? ==>
              e in blockOf && blockOf[e] in succ && blockOf[e] < |leaders| && leaders[blockOf[e]] == FindLabel(body, e, 0).value
  {
    hide Resolves, FindLabel;
    JumpCovers(body, leaders, blockOf, t);
    JumpCovers(body, leaders, blockOf, e);
    if t in blockOf {
      assert succ[0] == blockOf[t];
    }
    if e in blockOf {
      assert succ[|succ| - 1] == blockOf[e];
    }
  }

  /** Which blocks a jump to `l` reaches. */
  function JumpTo(leaders: seq<nat>, blockOf: map<Label, nat>, l: Label): seq<nat> {
    if l in blockOf then [blockOf[l]] else []
  }

  lemma JumpCovers(body: seq<Inst>, leaders: seq<nat>, blockOf: map<Label, nat>, l: Label)
    requires Resolves(body, leaders, blockOf)
    ensures forall c :: c in JumpTo(leaders, blockOf, l) ==> c < |leaders| && FindLabel(body, l, 0) == Some(leaders[c])
    ensures FindLabel(body, l, 0).Some? ==>
              l in blockOf && blockOf[l] in JumpTo(leaders, blockOf, l) &&
              blockOf[l] < |leaders| && leaders[blockOf[l]] == FindLabel(body, l, 0).value
  {
  }

  lemma BlockEndsInside(body: seq<Inst>, leaders: seq<nat>, b: nat)
    requires |body| > 0 && LeadersUpTo(body, leaders, |body|) && b < |leaders|
    ensures leaders[b] < BlockEnd(leaders, |body|, b) <= |body|
  {
  }

  method BuildCfg(body: seq<Inst>, localCount: nat) returns (g: Cfg)
    requires WfBody(body) && |body| > 0
    ensures CfgOk(g) && g.body == body && |g.escaped| == localCount
    ensures forall l :: 0 <= l < localCount ==> (g.escaped[l] <==> l in AddrTaken(body))
    ensures |g.leaders| == BlockCount(body)
  {
    hide SuccsOf, SingleDef, LocalUses, TerminatorsLast, UniqueLabels;
    var escaped := FindEscaped(body, localCount);
    var leaders, blockOf := FindLeaders(body);
    var succs: seq<seq<nat>> := [];
    forall b | 0 <= b < |leaders|
      ensures 0 < BlockEnd(leaders, |body|, b) <= |body|
    {
      BlockEndsInside(body, leaders, b);
    }
    while |succs| < |leaders|
      invariant |succs| <= |leaders|
      invariant forall b :: 0 <= b < |succs| ==> SuccsOf(body, leaders, b, succs[b])
    {
      var succ := FindSuccessors(body, leaders, blockOf, |succs|);
      succs := succs + [succ];
    }
    g := Cfg(body, escaped, leaders, succs);
  }

  // --- scanning blocks ---

  /** `scan_block`: the flags before block `b` given those after it, and the
      stores found dead on the way. */
  method ScanBlock(g: Cfg, b: nat, liveOut: seq<bool>) returns (live: seq<bool>, deadIndices: seq<nat>)
    requires CfgOk(g) && b < |g.leaders| && |liveOut| == |g.escaped|
    requires g.leaders[b] < End(g, b) <= |g.body|
    ensures |live| == |g.escaped|
    ensures forall l :: 0 <= l < |live| ==> live[l] == ScanBit(g, g.leaders[b], End(g, b), l, liveOut[l])
    ensures forall i :: i in deadIndices <==>
              g.leaders[b] <= i < End(g, b) && DeadStoreAt(g, b, liveOut, i)
  {
    hide CfgOk;
    live, deadIndices := liveOut, [];
    var i := End(g, b);
    while i > g.leaders[b]
      invariant g.leaders[b] <= i <= End(g, b)
      invariant |live| == |g.escaped|
      invariant forall l :: 0 <= l < |live| ==> live[l] == ScanBit(g, i, End(g, b), l, liveOut[l])
      invariant forall j :: j in deadIndices <==> i <= j < End(g, b) && DeadStoreAt(g, b, liveOut, j)
    {
      i := i - 1;
      var inst := g.body[i];
      if inst.StoreLocal? && inst.local < |live| && !g.escaped[inst.local] && !live[inst.local] {
        deadIndices := deadIndices + [i];
      }
      live := ScanInst(inst, g.escaped, live);
    }
  }

  /** One instruction of the scan, for all locals at once. */
  function ScanInst(inst: Inst, escaped: seq<bool>, live: seq<bool>): (r: seq<bool>)
    requires |live| == |escaped|
    ensures |r| == |live|
    ensures forall l :: 0 <= l < |live| ==> r[l] == Through(inst, escaped, l, live[l])
  {
    match inst
    case StoreLocal(l, _) => if l < |live| && !escaped[l] && live[l] then live[l := false] else live
    case LoadLocal(_, l) => Mark(live, l)
    case AddrOf(_, l) => Mark(live, l)
    case RegionBegin(l, _) => Mark(live, l)
    case RegionAlloc(_, _, l) => Mark(live, l)
    case RegionEnd(l) => Mark(live, l)
    case _ => live
  }

  function Mark(live: seq<bool>, l: Local): (r: seq<bool>)
    ensures |r| == |live|
  {
    if l < |live| then live[l := true] else live
  }

  /** Instruction `i` of block `b` stores to an unescaped local that is not live after it. */
  ghost predicate DeadStoreAt(g: Cfg, b: nat, liveOut: seq<bool>, i: nat)
    requires b < |g.leaders| && i < End(g, b) <= |g.body| && |liveOut| == |g.escaped|
  {
    && g.body[i].StoreLocal?
    && Kills(g.body[i], g.escaped, g.body[i].local)
    && !ScanBit(g, i + 1, End(g, b), g.body[i].local, liveOut[g.body[i].local])
  }

  /** The union of the flags at the successors. */
  method LiveOut(g: Cfg, t: Table, b: nat) returns (out: seq<bool>)
    requires CfgOk(g) && TableOk(g, t) && b < |g.leaders|
    ensures |out| == |g.escaped|
    ensures forall l :: 0 <= l < |out| ==> (out[l] <==> OutBit(g, t, b, l))
  {
    out := seq(|g.escaped|, _ => false);
    var succ := g.succs[b];
    assert SuccsOf(g.body, g.leaders, b, succ);
    for k := 0 to |succ|
      invariant |out| == |g.escaped|
      invariant forall l :: 0 <= l < |out| ==> (out[l] <==> exists c :: c in succ[..k] && c < |t| && t[c][l])
    {
      assert succ[k] in succ;
      out := Union(out, t[succ[k]]);
      assert succ[..k + 1] == succ[..k] + [succ[k]];
    }
    assert succ[..|succ|] == succ;
  }

  function Union(a: seq<bool>, b: seq<bool>): (r: seq<bool>)
    requires |a| == |b|
    ensures |r| == |a| && forall l :: 0 <= l < |r| ==> r[l] == (a[l] || b[l])
  {
    seq(|a|, l requires 0 <= l < |a| => a[l] || b[l])
  }
}
