/** What certified rewriting of one function keeps. */
module Rewriting {
  import opened Words
  import opened Ir
  import opened WellFormed
  import opened Compaction
  import opened Simulation

  ghost predicate KeepsLabels(body: seq<Inst>, c: Cert)
    requires |body| == |c.dead|
  {
    forall pc :: 0 <= pc < |body| && c.dead[pc] ==> !body[pc].LabelMark?
  }

  /** One optimizer pass over one function, before label compaction. */
  ghost predicate FnStep(f: Fn, f': Fn) {
    exists c :: Certified(f, f', c) && KeepsLabels(f.body, c)
  }

  ghost function AvailAll(body: seq<Inst>): (out: seq<set<Reg>>)
    ensures |out| == |body| + 1
    ensures forall i :: 0 <= i <= |body| ==> out[i] == Avail(body, i)
  {
    seq(|body| + 1, i requires 0 <= i <= |body| => Avail(body, i))
  }

  ghost function LocalsRead(body: seq<Inst>): (out: set<Local>)
    ensures forall i :: 0 <= i < |body| && LocalRead(body[i]).Some? ==> LocalRead(body[i]).value in out
  {
    set i | 0 <= i < |body| && LocalRead(body[i]).Some? :: LocalRead(body[i]).value
  }

  ghost function SameLocals(body: seq<Inst>): (out: seq<set<Local>>)
    ensures |out| == |body| + 1
    ensures forall i :: 0 <= i <= |body| ==> out[i] == LocalsRead(body)
  {
    seq(|body| + 1, i => LocalsRead(body))
  }

  /** The available registers flow along every edge. */
  lemma AvailFlows(body: seq<Inst>, pc: nat, q: nat, r: Reg)
    requires pc < |body| && Succ(body, pc, q)
    ensures q <= |body|
    ensures r in Avail(body, q) ==> r in Avail(body, pc) || Def(body[pc]) == Some(r)
  {
  }

  /** A register in `Flow` has its definition earlier. */
  lemma {:induction false} FlowDef(body: seq<Inst>, pc: nat, r: Reg) returns (i: nat)
    requires pc <= |body| && r in Flow(body, pc)
    ensures i < pc && Def(body[i]) == Some(r)
    ensures Flow(body, i) <= Flow(body, pc)
  {
    if Def(body[pc - 1]) == Some(r) {
      i := pc - 1;
    } else {
      i := FlowDef(body, pc - 1, r);
    }
  }

  lemma {:induction false} IdentityCert(f: Fn) returns (c: Cert)
    requires WfBody(f.body)
    ensures Certified(f, f, c) && KeepsLabels(f.body, c)
  {
    var body := f.body;
    var dead := seq(|body|, i => false);
    c := Cert(body, dead, map[], map[], AvailAll(body), SameLocals(body));
    NothingDead(body, dead, |body|);
    forall pc | 0 <= pc < |body|
      ensures StepOk(body, c, pc)
    {
      RenameNothing(body[pc]);
      forall q | Succ(body, pc, q)
        ensures FlowOk(body, c, pc, q)
      {
        forall r ensures r in Avail(body, q) ==> r in Avail(body, pc) || Def(body[pc]) == Some(r) {
          AvailFlows(body, pc, q, r);
        }
      }
      assert KeptOk(body, c, pc);
    }
  }

  // --- what is kept ---

  /** A kept instruction keeps its kind, definition and ids. */
  lemma KeptShape(body: seq<Inst>, c: Cert, pc: nat)
    requires CertOk(body, c) && pc < |body| && !c.dead[pc]
    ensures var i, i' := body[pc], c.newBody[pc];
      && Def(i') == Def(i)
      && (i.LabelMark? || i'.LabelMark? ==> i == i')
      && IsTerminator(i') == IsTerminator(i)
      && (i'.AddrOf? ==> i == i')
      && (i'.Call? ==> i.Call? && i.funcId == i'.funcId)
      && (i'.LoadString? || i'.LoadGlobal? || i'.LoadGlobalAddr? ==> i == i')
      && (i'.StoreGlobal? ==> i.StoreGlobal? && i.globalId == i'.globalId)
  {
    assert StepOk(body, c, pc);
    RenameUses(c.ren, body[pc]);
  }

  lemma KeptUses(body: seq<Inst>, c: Cert, pc: nat, r': Reg) returns (r: Reg)
    requires CertOk(body, c) && pc < |body| && !c.dead[pc]
    requires r' in Uses(c.newBody[pc])
    ensures r in Uses(body[pc]) && r in c.regs[pc] && r' == Ren(c.ren, r)
  {
    assert StepOk(body, c, pc);
    assert c.newBody[pc] == Rename(c.ren, body[pc]);
    RenameUses(c.ren, body[pc]);
    var k :| 0 <= k < |Uses(c.newBody[pc])| && Uses(c.newBody[pc])[k] == r';
    r := Uses(body[pc])[k];
  }

  /** A register that matters and is available is available, renamed, in the new body. */
  lemma {:induction false} FlowMoves(body: seq<Inst>, c: Cert, i: nat, r: Reg)
    requires WfBody(body) && CertOk(body, c) && i < |body| && !body[i].LabelMark?
    requires r in Flow(body, i) && r in c.regs[i]
    ensures Pos(c.dead, i) <= |Compact(c.newBody, c.dead)|
    ensures Ren(c.ren, r) in Flow(Compact(c.newBody, c.dead), Pos(c.dead, i))
  {
    var body' := Compact(c.newBody, c.dead);
    PosMonotone(c.dead, i, |body|);
    var j := i - 1;
    assert StepOk(body, c, j);
    assert !IsTerminator(body[j]) && Succ(body, j, i);
    assert FlowOk(body, c, j, i);
    if Def(body[j]) == Some(r) {
      if c.dead[j] {
        assert ErasedCopy(c, body[j], j);
        var left :| Copies(c.ren, c.consts, body[j], left) && Ren(c.ren, body[j].dst) == Ren(c.ren, Side(body[j], left));
        var keep := Side(body[j], left);
        assert Uses(body[j])[if left then 0 else 1] == keep;
        FlowMoves(body, c, j, keep);
      } else {
        CompactAt(c.newBody, c.dead, j);
        KeptShape(body, c, j);
      }
    } else {
      FlowMoves(body, c, j, r);
      if !c.dead[j] {
        CompactAt(c.newBody, c.dead, j);
        KeptShape(body, c, j);
      }
    }
  }

  lemma NewLocalUses(body: seq<Inst>, c: Cert)
    requires WfBody(body) && CertOk(body, c)
    ensures LocalUses(Compact(c.newBody, c.dead))
  {
    var body' := Compact(c.newBody, c.dead);
    forall k, r' | 0 <= k < |body'| && r' in Uses(body'[k])
      ensures r' in Flow(body', k)
    {
      var i := KeptOrigin(c.newBody, c.dead, |body|, k);
      var r := KeptUses(body, c, i, r');
      KeptShape(body, c, i);
      FlowMoves(body, c, i, r);
    }
  }

  lemma NewSingle(body: seq<Inst>, c: Cert)
    requires WfBody(body) && CertOk(body, c)
    ensures SingleDef(Compact(c.newBody, c.dead)) && UniqueLabels(Compact(c.newBody, c.dead))
  {
    var body' := Compact(c.newBody, c.dead);
    forall k, l | 0 <= k < l < |body'|
      ensures Def(body'[k]).Some? ==> Def(body'[k]) != Def(body'[l])
      ensures body'[k].LabelMark? && body'[l].LabelMark? ==> body'[k] != body'[l]
    {
      var i := KeptOrigin(c.newBody, c.dead, |body|, k);
      var j := KeptOrigin(c.newBody, c.dead, |body|, l);
      if j <= i {
        PosMonotone(c.dead, j, i);
      }
      KeptShape(body, c, i);
      KeptShape(body, c, j);
    }
  }

  lemma NewTerminators(body: seq<Inst>, c: Cert)
    requires WfBody(body) && CertOk(body, c) && KeepsLabels(body, c)
    ensures TerminatorsLast(Compact(c.newBody, c.dead))
  {
    var body' := Compact(c.newBody, c.dead);
    forall k | 0 <= k < |body'| - 1 && IsTerminator(body'[k])
      ensures body'[k + 1].LabelMark?
    {
      var i := KeptOrigin(c.newBody, c.dead, |body|, k);
      KeptShape(body, c, i);
      var j := KeptOrigin(c.newBody, c.dead, |body|, k + 1);
      if j <= i {
        PosMonotone(c.dead, j, i);
      }
      assert body[i + 1].LabelMark?;
      CompactAt(c.newBody, c.dead, i + 1);
      KeptShape(body, c, i + 1);
    }
  }

  lemma {:induction false} NewLabelCount(body: seq<Inst>, c: Cert, n: nat)
    requires CertOk(body, c) && KeepsLabels(body, c) && n <= |body|
    ensures LabelCount(Kept(c.newBody, c.dead, n), Pos(c.dead, n)) == LabelCount(body, n)
  {
    if n > 0 {
      NewLabelCount(body, c, n - 1);
      if !c.dead[n - 1] {
        KeptShape(body, c, n - 1);
        LabelCountPrefix(Kept(c.newBody, c.dead, n - 1), [c.newBody[n - 1]], Pos(c.dead, n - 1));
      }
    }
  }

  lemma {:induction false} LabelCountPrefix(a: seq<Inst>, b: seq<Inst>, n: nat)
    requires n <= |a|
    ensures LabelCount(a + b, n) == LabelCount(a, n)
  {
    if n > 0 {
      LabelCountPrefix(a, b, n - 1);
    }
  }

  lemma NewBlockCount(body: seq<Inst>, c: Cert)
    requires CertOk(body, c) && KeepsLabels(body, c)
    ensures BlockCount(Compact(c.newBody, c.dead)) <= BlockCount(body)
  {
    NewLabelCount(body, c, |body|);
    if |body| > 0 && body[0].LabelMark? {
      CompactAt(c.newBody, c.dead, 0);
      KeptShape(body, c, 0);
    }
    if |body| == 0 {
      assert |Compact(c.newBody, c.dead)| == 0;
    }
  }

  lemma NewInst(f: Fn, f': Fn, c: Cert, k: nat) returns (i: nat)
    requires Certified(f, f', c) && k < |f'.body|
    ensures i < |f.body| && !c.dead[i] && f'.body[k] == c.newBody[i] && Pos(c.dead, i) == k
    ensures f'.body[k].AddrOf? ==> f.body[i] == f'.body[k]
    ensures f'.body[k].Call? ==> f.body[i].Call? && f.body[i].funcId == f'.body[k].funcId
    ensures forall p: Program {:trigger IdsInRange(p, f'.body[k])} :: IdsInRange(p, f.body[i]) ==> IdsInRange(p, f'.body[k])
  {
    i := KeptOrigin(c.newBody, c.dead, |f.body|, k);
    KeptShape(f.body, c, i);
  }

  lemma {:induction false} StepKeepsShape(f: Fn, f': Fn)
    requires WfFn(f) && FnStep(f, f')
    ensures WfFn(f')
    ensures AddrTaken(f'.body) <= AddrTaken(f.body)
    ensures CallsOf(f'.body) == CallsOf(f.body)
  {
    var c :| Certified(f, f', c) && KeepsLabels(f.body, c);
    NewLocalUses(f.body, c);
    NewSingle(f.body, c);
    NewTerminators(f.body, c);
    NewBlockCount(f.body, c);
    NewNames(f, f', c);
  }

  /** A rewritten body takes no new address and makes the same calls. */
  lemma NewNames(f: Fn, f': Fn, c: Cert)
    requires Certified(f, f', c)
    ensures AddrTaken(f'.body) <= AddrTaken(f.body)
    ensures CallsOf(f'.body) == CallsOf(f.body)
  {
    forall l | l in AddrTaken(f'.body)
      ensures l in AddrTaken(f.body)
    {
      var k :| 0 <= k < |f'.body| && f'.body[k].AddrOf? && f'.body[k].local == l;
      var i := NewInst(f, f', c, k);
    }
    forall g | g in CallsOf(f'.body)
      ensures g in CallsOf(f.body)
    {
      var k :| 0 <= k < |f'.body| && f'.body[k].Call? && f'.body[k].funcId == g;
      var i := NewInst(f, f', c, k);
    }
    forall g | g in CallsOf(f.body)
      ensures g in CallsOf(f'.body)
    {
      var i :| 0 <= i < |f.body| && f.body[i].Call? && f.body[i].funcId == g;
      assert StepOk(f.body, c, i);
      CompactAt(c.newBody, c.dead, i);
      assert f'.body[Pos(c.dead, i)] == Rename(c.ren, f.body[i]);
    }
  }

  lemma StepKeepsIds(f: Fn, f': Fn, p: Program)
    requires FnStep(f, f')
    requires forall i :: 0 <= i < |f.body| ==> IdsInRange(p, f.body[i])
    ensures forall k :: 0 <= k < |f'.body| ==> IdsInRange(p, f'.body[k])
  {
    var c :| Certified(f, f', c) && KeepsLabels(f.body, c);
    forall k | 0 <= k < |f'.body|
      ensures IdsInRange(p, f'.body[k])
    {
      var i := NewInst(f, f', c, k);
    }
  }
}
