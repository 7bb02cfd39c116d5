/** Removing instructions whose result is never read: `remove_dead_instructions`. */
module DeadInstPass {
  import opened Words
  import opened Ir
  import opened IrObjects
  import opened WellFormed
  import opened Compaction
  import opened Simulation
  import opened Rewriting

  /** Some kept instruction at or after `pc` reads `r`. */
  ghost predicate NeededFrom(body: seq<Inst>, dead: seq<bool>, pc: nat, r: Reg)
    requires |dead| == |body|
  {
    exists j :: pc <= j < |body| && !dead[j] && r in Uses(body[j])
  }

  predicate Removable(inst: Inst, tempCount: nat) {
    Pure(inst) && Def(inst).Some? && Def(inst).value < tempCount
  }

  /** Every instruction that could be removed has its result read later. */
  ghost predicate AllNeeded(body: seq<Inst>, tempCount: nat) {
    forall k :: 0 <= k < |body| && Removable(body[k], tempCount) ==>
      exists j :: k < j < |body| && Def(body[k]).value in Uses(body[j])
  }

  /** The instructions without an effect. */
  predicate Computes(inst: Inst) {
    || inst.LoadConst? || inst.LoadFloatConst? || inst.LoadString? || inst.LoadLocal? || inst.AddrOf? || inst.Binary? || inst.Cast?
    || inst.GetField? || inst.Alloca? || inst.LoadGlobal? || inst.LoadGlobalAddr? || inst.LoadElement?
  }

  /** Exactly these can be removed when their result is not read. */
  lemma RemovableMeans(inst: Inst, tempCount: nat)
    ensures Removable(inst, tempCount) <==> Computes(inst) && inst.dst < tempCount
  {
  }

  ghost function NeededRegs(body: seq<Inst>, dead: seq<bool>): (out: seq<set<Reg>>)
    requires |dead| == |body|
    ensures |out| == |body| + 1
    ensures forall i :: 0 <= i <= |body| ==>
              out[i] == set r | r in Avail(body, i) && NeededFrom(body, dead, i, r)
  {
    seq(|body| + 1, i requires 0 <= i <= |body| =>
      set r | r in Avail(body, i) && NeededFrom(body, dead, i, r))
  }

  /** Erasing what nobody reads later in the text is safe: registers live only
      inside one block, so a loop cannot bring control back to a use. */
  lemma NeededCert(body: seq<Inst>, dead: seq<bool>) returns (c: Cert)
    requires WfBody(body) && |dead| == |body|
    requires forall i :: 0 <= i < |body| && dead[i] ==>
               Pure(body[i]) && Def(body[i]).Some? && !NeededFrom(body, dead, i + 1, Def(body[i]).value)
    ensures c == Cert(body, dead, map[], map[], NeededRegs(body, dead), SameLocals(body))
    ensures CertOk(body, c) && KeepsLabels(body, c)
  {
    c := Cert(body, dead, map[], map[], NeededRegs(body, dead), SameLocals(body));
    hide StepOk, WfBody, NeededFrom;
    forall pc | 0 <= pc < |body|
      ensures StepOk(body, c, pc)
    {
      CertStep(body, dead, c, pc);
    }
  }

  lemma CertStep(body: seq<Inst>, dead: seq<bool>, c: Cert, pc: nat)
    requires WfBody(body) && |dead| == |body| && pc < |body|
    requires forall i :: 0 <= i < |body| && dead[i] ==>
               Pure(body[i]) && Def(body[i]).Some? && !NeededFrom(body, dead, i + 1, Def(body[i]).value)
    requires c == Cert(body, dead, map[], map[], NeededRegs(body, dead), SameLocals(body))
    ensures StepOk(body, c, pc)
  {
    RenameNothing(body[pc]);
    forall q: nat | Succ(body, pc, q)
      ensures FlowOk(body, c, pc, q)
    {
      forall r | r in c.regs[q]
        ensures r in c.regs[pc] || Def(body[pc]) == Some(r)
      {
        AvailFlows(body, pc, q, r);
      }
    }
    if dead[pc] {
      assert DeadOk(body, c, pc);
    } else {
      assert KeptOk(body, c, pc);
    }
  }

  /** `remove_dead_instructions`: one backward scan with one flag per register. */
  method RemoveDeadInstructions(fn: IrFunction) returns (changed: bool)
    requires WfBody(fn.body)
    modifies fn`body
    ensures FnStep(old(fn.View()), fn.View())
    ensures !changed ==> fn.View() == old(fn.View())
    // nothing removable is left
    ensures AllNeeded(fn.body, fn.tempCount)
  {
    hide AllNeeded, CertOk, KeepsLabels, WfBody;
    ghost var body := fn.body;
    var live := new bool[fn.tempCount](_ => false);
    var dead := seq(|fn.body|, _ => false);
    var i: nat := |fn.body|;
    while i > 0
      invariant i <= |body| == |dead| && fn.body == body
      invariant forall r: Reg :: r < live.Length ==> live[r] == NeededFrom(body, dead, i, r)
      invariant forall j :: 0 <= j < i ==> !dead[j]
      invariant forall j: nat :: i <= j < |body| ==>
                  (dead[j] <==> Removable(body[j], fn.tempCount) && !NeededFrom(body, dead, j + 1, Def(body[j]).value))
    {
      i := i - 1;
      var attr := Classify(fn.body[i]);
      ghost var before := dead;
      if !attr.keep && attr.def.Some? && attr.def.value < live.Length && !live[attr.def.value] {
        dead := dead[i := true];
      } else {
        MarkUses(live, attr.uses);
      }
      NeededStep(body, before, dead, i);
    }
    ghost var c := NeededCert(body, dead);
    if true !in dead {
      changed := false;
      NothingDead(body, dead, |body|);
    } else {
      changed := true;
      CompactBody(fn, dead);
    }
    assert Certified(old(fn.View()), fn.View(), c);
    NeededLeft(body, dead, fn.tempCount);
  }

  lemma NeededLeft(body: seq<Inst>, dead: seq<bool>, tempCount: nat)
    requires |dead| == |body|
    requires forall i :: 0 <= i < |body| && Removable(body[i], tempCount) && !dead[i] ==>
               NeededFrom(body, dead, i + 1, Def(body[i]).value)
    ensures AllNeeded(Compact(body, dead), tempCount)
  {
    var body' := Compact(body, dead);
    forall k | 0 <= k < |body'| && Removable(body'[k], tempCount)
      ensures exists j :: k < j < |body'| && Def(body'[k]).value in Uses(body'[j])
    {
      var _ := LaterUse(body, dead, tempCount, k);
    }
  }

  method MarkUses(live: array<bool>, uses: seq<Reg>)
    modifies live
    ensures forall r :: 0 <= r < live.Length ==> live[r] == (old(live[r]) || r in uses)
  {
    for k := 0 to |uses|
      invariant forall r :: 0 <= r < live.Length ==> live[r] == (old(live[r]) || r in uses[..k])
    {
      if uses[k] < live.Length {
        live[uses[k]] := true;
      }
    }
    assert uses[..|uses|] == uses;
  }

  lemma NeededStep(body: seq<Inst>, before: seq<bool>, dead: seq<bool>, i: nat)
    requires |before| == |dead| == |body| && i < |body| && !before[i]
    requires dead == before || dead == before[i := true]
    ensures forall r :: NeededFrom(body, dead, i, r) <==>
              NeededFrom(body, before, i + 1, r) || (!dead[i] && r in Uses(body[i]))
    ensures forall j, r :: i < j <= |body| ==> (NeededFrom(body, dead, j, r) <==> NeededFrom(body, before, j, r))
  {
    forall r
      ensures NeededFrom(body, dead, i, r) <==>
              NeededFrom(body, before, i + 1, r) || (!dead[i] && r in Uses(body[i]))
    {
      if NeededFrom(body, before, i + 1, r) {
        var j :| i + 1 <= j < |body| && !before[j] && r in Uses(body[j]);
        assert !dead[j];
      }
    }
    forall j, r | i < j <= |body|
      ensures NeededFrom(body, dead, j, r) <==> NeededFrom(body, before, j, r)
    {
      if NeededFrom(body, before, j, r) {
        var k :| j <= k < |body| && !before[k] && r in Uses(body[k]);
        assert !dead[k];
      }
    }
  }

  lemma LaterUse(body: seq<Inst>, dead: seq<bool>, tempCount: nat, k: nat) returns (j: nat)
    requires |dead| == |body|
    requires forall i :: 0 <= i < |body| && Removable(body[i], tempCount) && !dead[i] ==>
               NeededFrom(body, dead, i + 1, Def(body[i]).value)
    requires k < |Compact(body, dead)| && Removable(Compact(body, dead)[k], tempCount)
    ensures k < j < |Compact(body, dead)| && Def(Compact(body, dead)[k]).value in Uses(Compact(body, dead)[j])
  {
    var i := KeptOrigin(body, dead, |body|, k);
    var u :| i + 1 <= u < |body| && !dead[u] && Def(body[i]).value in Uses(body[u]);
    CompactAt(body, dead, u);
    PosMonotone(dead, i, u);
    j := Pos(dead, u);
  }
}
