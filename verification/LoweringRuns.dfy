/** Stretches of an IR run, and single steps of the instructions that lowering emits. */
module LoweringRuns {
  import opened Words
  import opened Ir
  import opened Semantics
  import opened WellFormed

  /** A function of a program in an environment. */
  datatype Ctx = Ctx(env: Env, p: Program, f: nat)

  ghost predicate CtxOk(c: Ctx) {
    && c.f < |c.p.functions|
    && UniqueLabels(c.p.functions[c.f].body)
    && forall l :: !InMemory(c.env, c.p.functions[c.f].name, l)
  }

  function Code(c: Ctx): seq<Inst>
    requires c.f < |c.p.functions|
  {
    c.p.functions[c.f].body
  }

  ghost function Run(c: Ctx, pc: nat, s: State, n: nat): Outcome
    requires CtxOk(c) && pc <= |Code(c)|
  {
    Exec(c.env, c.p, c.f, pc, s, n)
  }

  /** Cut off after fewer than `k` jumps, the run is still under way. */
  ghost predicate Still(c: Ctx, pc: nat, s: State, k: nat) {
    CtxOk(c) && pc <= |Code(c)| &&
    forall m: nat {:trigger Run(c, pc, s, m)} :: m < k ==> Run(c, pc, s, m) == Running(s.h)
  }

  /** From `pc` in state `s` the run gets to `pc'` in state `t`, through `k` jumps
      and without an effect. */
  ghost predicate Reaches(c: Ctx, pc: nat, s: State, pc': nat, t: State, k: nat) {
    && Still(c, pc, s, k) && pc' <= |Code(c)| && t.h == s.h
    && forall n: nat {:trigger Run(c, pc', t, n)} :: Run(c, pc, s, n + k) == Run(c, pc', t, n)
  }

  /** What a jump to label `l` in state `t` leads to. */
  ghost function AtLabel(c: Ctx, l: Label, t: State, n: nat): Outcome
    requires CtxOk(c)
  {
    match FindLabel(Code(c), l, 0)
    case None => Stuck
    case Some(q) => Run(c, q, t, n)
  }

  /** From `pc` in state `s` the run jumps to label `l` in state `t`. */
  ghost predicate Jumps(c: Ctx, pc: nat, s: State, l: Label, t: State, k: nat) {
    && Still(c, pc, s, k) && t.h == s.h
    && forall n: nat {:trigger AtLabel(c, l, t, n)} :: Run(c, pc, s, n + k) == AtLabel(c, l, t, n)
  }

  /** From `pc` in state `s` the function returns `v`. */
  ghost predicate Returns(c: Ctx, pc: nat, s: State, v: Word, k: nat) {
    CtxOk(c) && pc <= |Code(c)| &&
    forall n: nat {:trigger Run(c, pc, s, n)} :: n >= k ==> Run(c, pc, s, n) == Done(v, s.h + [Leave(v)])
  }

  lemma ReachesSelf(c: Ctx, pc: nat, s: State)
    requires CtxOk(c) && pc <= |Code(c)|
    ensures Reaches(c, pc, s, pc, s, 0)
  {
    hide Run;
    forall n: nat ensures Run(c, pc, s, n + 0) == Run(c, pc, s, n) {
      assert n + 0 == n;
    }
  }

  lemma StillTrans(c: Ctx, pc: nat, s: State, pc1: nat, s1: State, k1: nat, k2: nat)
    requires Reaches(c, pc, s, pc1, s1, k1) && Still(c, pc1, s1, k2)
    ensures Still(c, pc, s, k1 + k2)
  {
    hide Run, CtxOk;
    forall m: nat | k1 <= m < k1 + k2
      ensures Run(c, pc, s, m) == Running(s.h)
    {
      var n: nat := m - k1;
      assert Run(c, pc, s, n + k1) == Run(c, pc1, s1, n);
    }
  }

  lemma ReachesTrans(c: Ctx, pc: nat, s: State, pc1: nat, s1: State, k1: nat, pc2: nat, s2: State, k2: nat)
    requires Reaches(c, pc, s, pc1, s1, k1) && Reaches(c, pc1, s1, pc2, s2, k2)
    ensures Reaches(c, pc, s, pc2, s2, k1 + k2)
  {
    hide Run, CtxOk;
    StillTrans(c, pc, s, pc1, s1, k1, k2);
    forall n: nat
      ensures Run(c, pc, s, n + (k1 + k2)) == Run(c, pc2, s2, n)
    {
      assert Run(c, pc1, s1, n + k2) == Run(c, pc2, s2, n);
      assert Run(c, pc, s, (n + k2) + k1) == Run(c, pc1, s1, n + k2);
      assert (n + k2) + k1 == n + (k1 + k2);
    }
  }

  lemma JumpsTrans(c: Ctx, pc: nat, s: State, pc1: nat, s1: State, k1: nat, l: Label, t: State, k2: nat)
    requires Reaches(c, pc, s, pc1, s1, k1) && Jumps(c, pc1, s1, l, t, k2)
    ensures Jumps(c, pc, s, l, t, k1 + k2)
  {
    hide Run, AtLabel, CtxOk;
    StillTrans(c, pc, s, pc1, s1, k1, k2);
    forall n: nat
      ensures Run(c, pc, s, n + (k1 + k2)) == AtLabel(c, l, t, n)
    {
      assert Run(c, pc1, s1, n + k2) == AtLabel(c, l, t, n);
      assert Run(c, pc, s, (n + k2) + k1) == Run(c, pc1, s1, n + k2);
      assert (n + k2) + k1 == n + (k1 + k2);
    }
  }

  lemma ReturnsTrans(c: Ctx, pc: nat, s: State, pc1: nat, s1: State, k1: nat, v: Word, k2: nat)
    requires Reaches(c, pc, s, pc1, s1, k1) && Returns(c, pc1, s1, v, k2)
    ensures Returns(c, pc, s, v, k1 + k2)
  {
    hide Run, CtxOk;
    forall n: nat | n >= k1 + k2
      ensures Run(c, pc, s, n) == Done(v, s.h + [Leave(v)])
    {
      var m: nat := n - k1;
      assert Run(c, pc1, s1, m) == Done(v, s1.h + [Leave(v)]);
      assert Run(c, pc, s, m + k1) == Run(c, pc1, s1, m);
    }
  }

  /** A jump to a label of the code arrives there. */
  lemma JumpArrives(c: Ctx, pc: nat, s: State, l: Label, t: State, k: nat, q: nat)
    requires Jumps(c, pc, s, l, t, k) && q < |Code(c)| && Code(c)[q] == LabelMark(l)
    ensures Reaches(c, pc, s, q, t, k)
  {
    LabelAt(c, l, q);
    forall n: nat
      ensures Run(c, pc, s, n + k) == Run(c, q, t, n)
    {
      assert AtLabel(c, l, t, n) == Run(c, q, t, n);
    }
  }

  lemma LabelAt(c: Ctx, l: Label, q: nat)
    requires CtxOk(c) && q < |Code(c)| && Code(c)[q] == LabelMark(l)
    ensures FindLabel(Code(c), l, 0) == Some(q)
  {
    var r := FindLabel(Code(c), l, 0);
    assert r.Some?;
  }

  // --- single instructions ---

  /** A straight action takes one step and no jump. */
  lemma DoStraight(c: Ctx, pc: nat, s: State, a: Act)
    requires CtxOk(c) && pc < |Code(c)| && Straight(a) && !a.Effect?
    requires StepOf(c.env, c.p, c.p.functions[c.f].name, Code(c)[pc], s) == a
    ensures Reaches(c, pc, s, pc + 1, After(Code(c)[pc], s, a), 0)
  {
    hide StepOf;
    var pc', t := pc + 1, After(Code(c)[pc], s, a);
    forall n: nat
      ensures Run(c, pc, s, n + 0) == Run(c, pc', t, n)
    {
      ExecStraight(c.env, c.p, c.f, pc, s, n, a);
      assert n + 0 == n;
    }
  }

  lemma DoConst(c: Ctx, pc: nat, s: State, d: Reg, i: Int64)
    requires CtxOk(c) && pc < |Code(c)| && Code(c)[pc] == LoadConst(d, i)
    ensures Reaches(c, pc, s, pc + 1, s.(regs := s.regs[d := Unsigned(i)]), 0)
  {
    DoStraight(c, pc, s, Value(Unsigned(i)));
  }

  lemma DoLoad(c: Ctx, pc: nat, s: State, d: Reg, l: Local)
    requires CtxOk(c) && pc < |Code(c)| && Code(c)[pc] == LoadLocal(d, l) && l in s.locals
    ensures Reaches(c, pc, s, pc + 1, s.(regs := s.regs[d := s.locals[l]]), 0)
  {
    DoStraight(c, pc, s, Value(s.locals[l]));
  }

  lemma DoStore(c: Ctx, pc: nat, s: State, l: Local, r: Reg)
    requires CtxOk(c) && pc < |Code(c)| && Code(c)[pc] == StoreLocal(l, r) && l in s.locals && r in s.regs
    ensures Reaches(c, pc, s, pc + 1, s.(locals := s.locals[l := s.regs[r]]), 0)
  {
    var vs := Vals(s.regs, Uses(Code(c)[pc]));
    assert vs.Some? && vs.value[0] == s.regs[r];
    DoStraight(c, pc, s, Put(l, s.regs[r]));
  }

  lemma DoBinary(c: Ctx, pc: nat, s: State, op: BinaryOp, d: Reg, a: Reg, b: Reg, k: TypeKind, v: Word)
    requires CtxOk(c) && pc < |Code(c)| && Code(c)[pc] == Binary(op, d, a, b, k) && a in s.regs && b in s.regs
    requires IsScalarIntKind(k) && EvalInt(op, k, s.regs[a], s.regs[b]) == Some(v)
    ensures Reaches(c, pc, s, pc + 1, s.(regs := s.regs[d := v]), 0)
  {
    hide EvalInt;
    var inst := Code(c)[pc];
    var vs := Vals(s.regs, Uses(inst));
    assert Uses(inst)[0] == a && Uses(inst)[1] == b;
    assert vs.Some? && vs.value[0] == s.regs[a] && vs.value[1] == s.regs[b];
    DoStraight(c, pc, s, Value(v));
  }

  lemma DoLabel(c: Ctx, pc: nat, s: State)
    requires CtxOk(c) && pc < |Code(c)| && Code(c)[pc].LabelMark?
    ensures Reaches(c, pc, s, pc + 1, s, 0)
  {
    DoStraight(c, pc, s, Act.Skip);
  }

  lemma DoGo(c: Ctx, pc: nat, s: State, l: Label)
    requires CtxOk(c) && pc < |Code(c)|
    requires StepOf(c.env, c.p, c.p.functions[c.f].name, Code(c)[pc], s) == Go(l)
    ensures Jumps(c, pc, s, l, s, 1)
  {
    hide StepOf;
  }

  lemma DoJump(c: Ctx, pc: nat, s: State, l: Label)
    requires CtxOk(c) && pc < |Code(c)| && Code(c)[pc] == Jump(l)
    ensures Jumps(c, pc, s, l, s, 1)
  {
    DoGo(c, pc, s, l);
  }

  lemma DoBranch(c: Ctx, pc: nat, s: State, r: Reg, a: Label, b: Label)
    requires CtxOk(c) && pc < |Code(c)| && Code(c)[pc] == Branch(r, a, b) && r in s.regs
    ensures Jumps(c, pc, s, if s.regs[r] != 0 then a else b, s, 1)
  {
    var vs := Vals(s.regs, Uses(Code(c)[pc]));
    assert vs.Some? && vs.value[0] == s.regs[r];
    DoGo(c, pc, s, if s.regs[r] != 0 then a else b);
  }

  lemma DoReturn(c: Ctx, pc: nat, s: State, r: Reg)
    requires CtxOk(c) && pc < |Code(c)| && Code(c)[pc] == Return(r) && r in s.regs
    ensures Returns(c, pc, s, s.regs[r], 0)
  {
    var vs := Vals(s.regs, Uses(Code(c)[pc]));
    assert vs.Some? && vs.value[0] == s.regs[r];
    assert StepOf(c.env, c.p, c.p.functions[c.f].name, Code(c)[pc], s) == Finish(s.regs[r]);
  }
}
