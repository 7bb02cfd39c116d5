/** When one body may replace another.

    A certificate lists, for an old body, its rewritten and erased instructions,
    a renaming of registers, the registers known to hold constants, and, at
    every position, the registers and private locals that still matter.
    `CertOk` is a condition on single instructions and their successors;
    `RunSimulates` shows it is enough for whole runs of whole programs. */
module Simulation {
  import opened Words
  import opened Ir
  import opened Semantics
  import opened WellFormed
  import opened Compaction

  datatype Cert = Cert(
    newBody: seq<Inst>,
    dead: seq<bool>,
    ren: map<Reg, Reg>,
    consts: map<Reg, Int64>,
    regs: seq<set<Reg>>,
    locals: seq<set<Local>>)

  /** `a` is a value register `r` can have, as far as the constants tell. */
  predicate Fits(ren: map<Reg, Reg>, consts: map<Reg, Int64>, r: Reg, a: Word) {
    Ren(ren, r) in consts ==> a == Unsigned(consts[Ren(ren, r)])
  }

  /** The binary instruction can only compute `v`. */
  ghost predicate FoldsTo(ren: map<Reg, Reg>, consts: map<Reg, Int64>, inst: Inst, v: Int64)
    requires inst.Binary?
  {
    && IsScalarIntKind(inst.kind)
    && forall a: Word, b: Word {:trigger EvalInt(inst.op, inst.kind, a, b)} ::
         Fits(ren, consts, inst.lhs, a) && Fits(ren, consts, inst.rhs, b) && EvalInt(inst.op, inst.kind, a, b).Some? ==>
           EvalInt(inst.op, inst.kind, a, b).value == Unsigned(v)
  }

  function Side(inst: Inst, left: bool): Reg
    requires inst.Binary?
  {
    if left then inst.lhs else inst.rhs
  }

  /** The binary instruction can only copy its left (or right) operand. */
  ghost predicate Copies(ren: map<Reg, Reg>, consts: map<Reg, Int64>, inst: Inst, left: bool)
    requires inst.Binary?
  {
    && IsScalarIntKind(inst.kind)
    && forall a: Word, b: Word {:trigger EvalInt(inst.op, inst.kind, a, b)} ::
         Fits(ren, consts, inst.lhs, a) && Fits(ren, consts, inst.rhs, b) && EvalInt(inst.op, inst.kind, a, b).Some? ==>
           EvalInt(inst.op, inst.kind, a, b).value == if left then a else b
  }

  /** The erased instruction `dst = keep op identity`, whose uses were renamed. */
  ghost predicate ErasedCopy(c: Cert, inst: Inst, pc: nat)
    requires pc < |c.regs|
  {
    && inst.Binary?
    && inst.lhs in c.regs[pc] && inst.rhs in c.regs[pc]
    && exists left :: Copies(c.ren, c.consts, inst, left) && Ren(c.ren, inst.dst) == Ren(c.ren, Side(inst, left))
  }

  ghost predicate DeadOk(body: seq<Inst>, c: Cert, pc: nat)
    requires pc < |body| && |c.regs| == |c.locals| == |body| + 1
  {
    var inst := body[pc];
    || (inst.LabelMark? && forall i :: 0 <= i < |body| ==> !Targets(body[i], inst.id))
    || (Pure(inst) && Def(inst).Some? && Def(inst).value !in c.regs[pc + 1])
    || (inst.StoreLocal? && inst.local !in AddrTaken(body) && inst.local !in c.locals[pc + 1])
    || (ErasedCopy(c, inst, pc)
        && forall r :: r in c.regs[pc + 1] && r != inst.dst ==> r in c.regs[pc])
  }

  ghost predicate KeptOk(body: seq<Inst>, c: Cert, pc: nat)
    requires pc < |body| == |c.newBody| && |c.regs| == |c.locals| == |body| + 1
  {
    var inst := body[pc];
    var inst' := c.newBody[pc];
    && (inst' == Rename(c.ren, inst)
        || (inst.Binary? && inst'.LoadConst? && inst'.dst == inst.dst && FoldsTo(c.ren, c.consts, inst, inst'.imm)))
    && (forall r :: r in Uses(inst) ==> r in c.regs[pc])
    && (LocalRead(inst).Some? ==> LocalRead(inst).value in c.locals[pc])
    && (Def(inst).Some? ==>
          && Def(inst).value !in c.ren
          && (Def(inst).value in c.consts ==> inst == LoadConst(Def(inst).value, c.consts[Def(inst).value]))
          && forall r :: r in c.regs[pc + 1] && r != Def(inst).value ==> Ren(c.ren, r) != Def(inst).value)
  }

  /** What matters after `pc` matters before, unless the instruction provides it. */
  ghost predicate FlowOk(body: seq<Inst>, c: Cert, pc: nat, q: nat)
    requires pc < |body| && |c.regs| == |c.locals| == |body| + 1
  {
    && q <= |body|
    && (forall r :: r in c.regs[q] ==> r in c.regs[pc] || Def(body[pc]) == Some(r))
    && (forall l :: l in c.locals[q] ==> l in c.locals[pc] || (body[pc].StoreLocal? && body[pc].local == l && l !in AddrTaken(body)))
  }

  ghost predicate StepOk(body: seq<Inst>, c: Cert, pc: nat)
    requires pc < |body| == |c.newBody| == |c.dead| && |c.regs| == |c.locals| == |body| + 1
  {
    && (forall q :: Succ(body, pc, q) ==> FlowOk(body, c, pc, q))
    && (if c.dead[pc] then DeadOk(body, c, pc) else KeptOk(body, c, pc))
  }

  ghost predicate CertOk(body: seq<Inst>, c: Cert) {
    && |body| == |c.newBody| == |c.dead|
    && |c.regs| == |c.locals| == |body| + 1
    && forall pc :: 0 <= pc < |body| ==> StepOk(body, c, pc)
  }

  /** `f'` is `f` with the body the certificate describes. */
  ghost predicate Certified(f: Fn, f': Fn, c: Cert) {
    && CertOk(f.body, c)
    && f' == f.(body := Compact(c.newBody, c.dead))
  }

  /** The states agree on what matters at `pc`. */
  ghost predicate Rel(c: Cert, pc: nat, s: State, t: State)
    requires pc < |c.regs| && pc < |c.locals|
  {
    && s.h == t.h
    && s.locals.Keys == t.locals.Keys
    && (forall r :: r in c.regs[pc] && r in s.regs ==>
          Ren(c.ren, r) in t.regs && t.regs[Ren(c.ren, r)] == s.regs[r])
    && (forall l :: l in c.locals[pc] && l in s.locals ==> t.locals[l] == s.locals[l])
    && (forall r :: r in c.consts && r in t.regs ==> t.regs[r] == Unsigned(c.consts[r]))
  }

  // --- single instructions ---

  lemma ActOfRename(env: Env, p: Program, p': Program, m: map<Reg, Reg>, inst: Inst, vs: seq<Word>, slot: Word, h: History)
    requires |vs| == |Uses(inst)| && p.strings == p'.strings && p.globals == p'.globals
    requires |vs| == |Uses(Rename(m, inst))|
    ensures ActOf(env, p', Rename(m, inst), vs, slot, h) == ActOf(env, p, inst, vs, slot, h)
  {
    hide EvalInt, Ask, Perform;
  }

  /** A kept instruction does the same in related states. */
  lemma StepSame(env: Env, p: Program, p': Program, name: string, c: Cert, pc: nat, inst: Inst, s: State, t: State)
    requires pc < |c.regs| && pc < |c.locals| && Rel(c, pc, s, t)
    requires p.strings == p'.strings && p.globals == p'.globals
    requires forall r :: r in Uses(inst) ==> r in c.regs[pc]
    requires LocalRead(inst).Some? ==> LocalRead(inst).value in c.locals[pc]
    requires StepOf(env, p, name, inst, s) != Trap
    ensures StepOf(env, p', name, Rename(c.ren, inst), t) == StepOf(env, p, name, inst, s)
  {
    hide Rename, ActOf, Classify;
    var inst' := Rename(c.ren, inst);
    RenameUses(c.ren, inst);
    var rs := Uses(inst);
    var vs, vt := Vals(s.regs, rs), Vals(t.regs, Uses(inst'));
    assert vs.Some?;
    assert forall i :: 0 <= i < |rs| ==> rs[i] in rs && rs[i] in s.regs;
    assert forall i :: 0 <= i < |rs| ==> Uses(inst')[i] == Ren(c.ren, rs[i]) && Uses(inst')[i] in t.regs;
    assert vt.Some? && vt.value == vs.value;
    assert Slot(env, name, inst', t) == Slot(env, name, inst, s);
    match Slot(env, name, inst, s)
    case Value(slot) => ActOfRename(env, p, p', c.ren, inst, vs.value, slot, s.h);
    case _ =>
  }

  /** A binary instruction that does not trap computes a value the constants allow. */
  lemma BinaryFits(env: Env, p: Program, name: string, c: Cert, pc: nat, inst: Inst, s: State, t: State)
    requires pc < |c.regs| && pc < |c.locals| && Rel(c, pc, s, t)
    requires inst.Binary? && IsScalarIntKind(inst.kind)
    requires StepOf(env, p, name, inst, s) != Trap
    requires inst.lhs in c.regs[pc] && inst.rhs in c.regs[pc]
    ensures inst.lhs in s.regs && inst.rhs in s.regs
    ensures Fits(c.ren, c.consts, inst.lhs, s.regs[inst.lhs]) && Fits(c.ren, c.consts, inst.rhs, s.regs[inst.rhs])
    ensures EvalInt(inst.op, inst.kind, s.regs[inst.lhs], s.regs[inst.rhs]).Some?
    ensures StepOf(env, p, name, inst, s)
         == Value(EvalInt(inst.op, inst.kind, s.regs[inst.lhs], s.regs[inst.rhs]).value)
  {
    var vs := Vals(s.regs, Uses(inst));
    assert vs.Some?;
    assert Uses(inst)[0] == inst.lhs && Uses(inst)[1] == inst.rhs;
  }

  /** Which instructions do what, and where they lead. */
  ghost predicate ActFits(env: Env, name: string, body: seq<Inst>, pc: nat, a: Act)
    requires pc < |body|
  {
    var inst := body[pc];
    match a
    case Trap => true
    case Finish(_) => inst.Return?
    case Go(l) =>
      Targets(inst, l) && (FindLabel(body, l, 0).Some? ==> Succ(body, pc, FindLabel(body, l, 0).value))
    case Put(l, _) => Succ(body, pc, pc + 1) && inst.StoreLocal? && inst.local == l
    case Skip => Succ(body, pc, pc + 1) && inst.LabelMark?
    case Value(v) =>
      Succ(body, pc, pc + 1) && Pure(inst) && (inst.LoadConst? ==> v == Unsigned(inst.imm))
    case Effect(_, _) =>
      Succ(body, pc, pc + 1) && !Pure(inst) && (inst.StoreLocal? ==> InMemory(env, name, inst.local))
    case Invoke(f, _) => Succ(body, pc, pc + 1) && inst.Call? && inst.funcId == f
  }

  lemma StepFits(env: Env, p: Program, name: string, body: seq<Inst>, pc: nat, s: State)
    requires pc < |body|
    ensures ActFits(env, name, body, pc, StepOf(env, p, name, body[pc], s))
  {
  }

  lemma DefAgrees(env: Env, name: string, body: seq<Inst>, c: Cert, pc: nat, s: State, t: State, a: Act)
    requires CertOk(body, c) && pc < |body| && !c.dead[pc] && Rel(c, pc, s, t)
    requires a.Value? || a.Effect?
    requires ActFits(env, name, body, pc, a) || (a.Effect? && body[pc].Call?)
    requires FlowOk(body, c, pc, pc + 1)
    requires KeptOk(body, c, pc)
    ensures var s1, t1 := After(body[pc], s, a).regs, After(c.newBody[pc], t, a).regs;
      && (forall r :: r in c.regs[pc + 1] && r in s1 ==>
            Ren(c.ren, r) in t1 && t1[Ren(c.ren, r)] == s1[r])
      && (forall r :: r in c.consts && r in t1 ==> t1[r] == Unsigned(c.consts[r]))
  {
    hide Copies, FoldsTo, DeadOk;
    RenameUses(c.ren, body[pc]);
    var inst := body[pc];
    assert SetDef(c.newBody[pc], t.regs, a.v) == SetDef(inst, t.regs, a.v);
    if Def(inst).Some? {
      var d := Def(inst).value;
      assert d in c.consts ==> a.v == Unsigned(c.consts[d]);
    }
  }

  /** The same action of a kept instruction and of its rewritten form. */
  lemma RelAfter(env: Env, name: string, body: seq<Inst>, c: Cert, pc: nat, s: State, t: State, a: Act)
    requires CertOk(body, c) && pc < |body| && !c.dead[pc] && Rel(c, pc, s, t)
    requires forall l :: InMemory(env, name, l) ==> l in AddrTaken(body)
    requires Straight(a) && (ActFits(env, name, body, pc, a) || (a.Effect? && body[pc].Call?))
    ensures Rel(c, pc + 1, After(body[pc], s, a), After(c.newBody[pc], t, a))
  {
    assert StepOk(body, c, pc);
    assert Succ(body, pc, pc + 1);
    assert FlowOk(body, c, pc, pc + 1);
    if a.Value? || a.Effect? {
      DefAgrees(env, name, body, c, pc, s, t, a);
    }
  }

  /** Positions move with compaction: the first label `l` that some jump targets. */
  lemma LabelMoves(body: seq<Inst>, c: Cert, l: Label, j: nat)
    requires CertOk(body, c) && j < |body| && Targets(body[j], l)
    ensures FindLabel(body, l, 0).Some? ==>
              FindLabel(Compact(c.newBody, c.dead), l, 0) == Some(Pos(c.dead, FindLabel(body, l, 0).value))
  {
    hide Kept, FlowOk;
    if FindLabel(body, l, 0).Some? {
      var t := FindLabel(body, l, 0).value;
      var body' := Compact(c.newBody, c.dead);
      assert StepOk(body, c, t);
      assert !c.dead[t];
      CompactAt(c.newBody, c.dead, t);
      var k := Pos(c.dead, t);
      assert body'[k] == LabelMark(l);
      forall k' | 0 <= k' < k
        ensures body'[k'] != LabelMark(l)
      {
        var i := KeptOrigin(c.newBody, c.dead, |body|, k');
        if t <= i {
          PosMonotone(c.dead, t, i);
        }
        assert StepOk(body, c, i);
        assert body[i] != LabelMark(l);
        RenameUses(c.ren, body[i]);
      }
      var r := FindLabel(body', l, 0);
      assert r.Some?;
    }
  }

  // --- whole programs ---

  ghost predicate ProgramPair(p: Program, p': Program, certs: seq<Cert>) {
    && |p.functions| == |p'.functions| == |certs|
    && p.strings == p'.strings && p.globals == p'.globals
    && forall g :: 0 <= g < |certs| ==> Certified(p.functions[g], p'.functions[g], certs[g])
  }

  /** Functions in `ks` call only functions in `ks`. */
  ghost predicate Closed(p: Program, ks: set<nat>) {
    forall g :: g in ks ==> g < |p.functions| && CallsOf(p.functions[g].body) <= ks
  }

  /** Memory effects touch only locals of `ks` whose address is taken. */
  ghost predicate EnvFits(env: Env, p: Program, ks: set<nat>) {
    forall g, l :: g in ks && g < |p.functions| && InMemory(env, p.functions[g].name, l) ==>
      l in AddrTaken(p.functions[g].body)
  }

  lemma {:induction false} RunSimulates(env: Env, p: Program, p': Program, certs: seq<Cert>, ks: set<nat>,
                                        g: nat, args: seq<Word>, h: History, n: nat)
    requires ProgramPair(p, p', certs) && Closed(p, ks) && EnvFits(env, p, ks) && g in ks
    ensures RunFn(env, p, g, args, h, n) != Stuck ==>
              RunFn(env, p', g, args, h, n) == RunFn(env, p, g, args, h, n)
    decreases n, 1, 0
  {
    var fn := p.functions[g];
    var c := certs[g];
    assert Certified(fn, p'.functions[g], c);
    if !fn.isExtern {
      var s := Entry(env, fn, args, h);
      assert Entry(env, p'.functions[g], args, h).locals == s.locals;
      assert Pos(c.dead, 0) == 0;
      ExecSimulates(env, p, p', certs, ks, g, 0, s, s, n);
    }
  }

  lemma {:induction false} ExecSimulates(env: Env, p: Program, p': Program, certs: seq<Cert>, ks: set<nat>,
                                         g: nat, pc: nat, s: State, t: State, n: nat)
    requires ProgramPair(p, p', certs) && Closed(p, ks) && EnvFits(env, p, ks) && g in ks
    requires pc <= |p.functions[g].body| && Rel(certs[g], pc, s, t)
    ensures Pos(certs[g].dead, pc) <= |p'.functions[g].body|
    ensures Exec(env, p, g, pc, s, n) != Stuck ==>
              Exec(env, p', g, Pos(certs[g].dead, pc), t, n) == Exec(env, p, g, pc, s, n)
    decreases n, 0, |p.functions[g].body| - pc
  {
    var c := certs[g];
    var fn, fn' := p.functions[g], p'.functions[g];
    var body := fn.body;
    assert Certified(fn, fn', c);
    PosMonotone(c.dead, pc, |body|);
    if pc < |body| && StepOf(env, p, fn.name, body[pc], s) != Trap {
      assert StepOk(body, c, pc);
      if c.dead[pc] {
        DeadStep(env, p, p', certs, ks, g, pc, s, t, n);
      } else {
        CompactAt(c.newBody, c.dead, pc);
        KeptStep(env, p, p', certs, ks, g, pc, s, t, n);
      }
    }
  }

  lemma {:induction false} DeadStep(env: Env, p: Program, p': Program, certs: seq<Cert>, ks: set<nat>,
                                    g: nat, pc: nat, s: State, t: State, n: nat)
    requires ProgramPair(p, p', certs) && Closed(p, ks) && EnvFits(env, p, ks) && g in ks
    requires pc < |p.functions[g].body| && Rel(certs[g], pc, s, t)
    requires Certified(p.functions[g], p'.functions[g], certs[g])
    requires StepOf(env, p, p.functions[g].name, p.functions[g].body[pc], s) != Trap
    requires certs[g].dead[pc]
    ensures Pos(certs[g].dead, pc) <= |p'.functions[g].body|
    ensures Exec(env, p, g, pc, s, n) != Stuck ==>
              Exec(env, p', g, Pos(certs[g].dead, pc), t, n) == Exec(env, p, g, pc, s, n)
    decreases n, 0, |p.functions[g].body| - pc, 0
  {
    var c := certs[g];
    var body := p.functions[g].body;
    var inst := body[pc];
    assert StepOk(body, c, pc);
    assert Succ(body, pc, pc + 1);
    assert FlowOk(body, c, pc, pc + 1);
    var a := StepOf(env, p, p.functions[g].name, inst, s);
    DeadRel(env, p, p.functions[g].name, body, c, pc, s, t);
    ExecSimulates(env, p, p', certs, ks, g, pc + 1, After(inst, s, a), t, n);
  }

  /** An erased instruction leaves related states related. */
  lemma DeadRel(env: Env, p: Program, name: string, body: seq<Inst>, c: Cert, pc: nat, s: State, t: State)
    requires CertOk(body, c) && pc < |body| && c.dead[pc] && Rel(c, pc, s, t)
    requires forall l :: InMemory(env, name, l) ==> l in AddrTaken(body)
    requires StepOf(env, p, name, body[pc], s) != Trap
    ensures var a := StepOf(env, p, name, body[pc], s);
      Straight(a) && !a.Effect? && Rel(c, pc + 1, After(body[pc], s, a), t)
  {
    hide Rename, Copies, FoldsTo;
    var inst := body[pc];
    assert StepOk(body, c, pc);
    assert Succ(body, pc, pc + 1);
    assert FlowOk(body, c, pc, pc + 1);
    if inst.LabelMark? {
    } else if inst.StoreLocal? {
    } else if Pure(inst) && Def(inst).Some? && Def(inst).value !in c.regs[pc + 1] {
      PureGivesValue(env, p, name, inst, s);
    } else {
      ErasedCopyRel(env, p, name, body, c, pc, s, t);
    }
  }

  lemma PureGivesValue(env: Env, p: Program, name: string, inst: Inst, s: State)
    requires Pure(inst)
    ensures StepOf(env, p, name, inst, s) == Trap || StepOf(env, p, name, inst, s).Value?
  {
  }

  lemma ErasedCopyRel(env: Env, p: Program, name: string, body: seq<Inst>, c: Cert, pc: nat, s: State, t: State)
    requires CertOk(body, c) && pc < |body| && Rel(c, pc, s, t)
    requires ErasedCopy(c, body[pc], pc)
    requires forall r :: r in c.regs[pc + 1] && r != body[pc].dst ==> r in c.regs[pc]
    requires FlowOk(body, c, pc, pc + 1)
    requires StepOf(env, p, name, body[pc], s) != Trap
    ensures StepOf(env, p, name, body[pc], s).Value?
    ensures Rel(c, pc + 1, After(body[pc], s, StepOf(env, p, name, body[pc], s)), t)
  {
    hide Rename, ActOf, KeptOk, DeadOk;
    var inst := body[pc];
    var left :| Copies(c.ren, c.consts, inst, left) && Ren(c.ren, inst.dst) == Ren(c.ren, Side(inst, left));
    BinaryFits(env, p, name, c, pc, inst, s, t);
  }

  /** A kept instruction and its rewritten form do the same. */
  lemma KeptAct(env: Env, p: Program, p': Program, name: string, body: seq<Inst>, c: Cert, pc: nat, s: State, t: State)
    requires CertOk(body, c) && pc < |body| && !c.dead[pc] && Rel(c, pc, s, t)
    requires p.strings == p'.strings && p.globals == p'.globals
    requires StepOf(env, p, name, body[pc], s) != Trap
    ensures StepOf(env, p', name, c.newBody[pc], t) == StepOf(env, p, name, body[pc], s)
  {
    var inst := body[pc];
    var inst' := c.newBody[pc];
    assert StepOk(body, c, pc);
    if inst' == Rename(c.ren, inst) {
      StepSame(env, p, p', name, c, pc, inst, s, t);
    } else {
      assert Uses(inst)[0] == inst.lhs && Uses(inst)[1] == inst.rhs;
      BinaryFits(env, p, name, c, pc, inst, s, t);
      assert StepOf(env, p', name, inst', t) == Value(Unsigned(inst'.imm));
    }
  }

  lemma {:induction false} KeptStep(env: Env, p: Program, p': Program, certs: seq<Cert>, ks: set<nat>,
                                    g: nat, pc: nat, s: State, t: State, n: nat)
    requires ProgramPair(p, p', certs) && Closed(p, ks) && EnvFits(env, p, ks) && g in ks
    requires pc < |p.functions[g].body| && Rel(certs[g], pc, s, t)
    requires Certified(p.functions[g], p'.functions[g], certs[g])
    requires StepOf(env, p, p.functions[g].name, p.functions[g].body[pc], s) != Trap
    requires !certs[g].dead[pc]
    ensures Pos(certs[g].dead, pc) < |p'.functions[g].body|
    ensures Exec(env, p, g, pc, s, n) != Stuck ==>
              Exec(env, p', g, Pos(certs[g].dead, pc), t, n) == Exec(env, p, g, pc, s, n)
    decreases n, 0, |p.functions[g].body| - pc, 1
  {
    match StepOf(env, p, p.functions[g].name, p.functions[g].body[pc], s)
    case Trap =>
    case Go(_) => GoStep(env, p, p', certs, ks, g, pc, s, t, n);
    case Invoke(_, _) => InvokeStep(env, p, p', certs, ks, g, pc, s, t, n);
    case Finish(_) =>
      CompactAt(certs[g].newBody, certs[g].dead, pc);
      KeptAct(env, p, p', p.functions[g].name, p.functions[g].body, certs[g], pc, s, t);
    case _ => StraightStep(env, p, p', certs, ks, g, pc, s, t, n);
  }

  lemma {:induction false} GoStep(env: Env, p: Program, p': Program, certs: seq<Cert>, ks: set<nat>,
                                  g: nat, pc: nat, s: State, t: State, n: nat)
    requires ProgramPair(p, p', certs) && Closed(p, ks) && EnvFits(env, p, ks) && g in ks
    requires pc < |p.functions[g].body| && Rel(certs[g], pc, s, t)
    requires Certified(p.functions[g], p'.functions[g], certs[g])
    requires StepOf(env, p, p.functions[g].name, p.functions[g].body[pc], s).Go?
    requires !certs[g].dead[pc]
    ensures Pos(certs[g].dead, pc) < |p'.functions[g].body|
    ensures Exec(env, p, g, pc, s, n) != Stuck ==>
              Exec(env, p', g, Pos(certs[g].dead, pc), t, n) == Exec(env, p, g, pc, s, n)
    decreases n, 0, |p.functions[g].body| - pc, 0
  {
    hide StepOf, Kept, KeptOk, DeadOk, RunFn, Rename;
    var c := certs[g];
    var body := p.functions[g].body;
    var name := p.functions[g].name;
    var inst := body[pc];
    CompactAt(c.newBody, c.dead, pc);
    KeptAct(env, p, p', name, body, c, pc, s, t);
    StepFits(env, p, name, body, pc, s);
    var l := StepOf(env, p, name, inst, s).target;
    LabelMoves(body, c, l, pc);
    if n > 0 && FindLabel(body, l, 0).Some? {
      var q := FindLabel(body, l, 0).value;
      assert StepOk(body, c, pc);
      assert FlowOk(body, c, pc, q);
      ExecSimulates(env, p, p', certs, ks, g, q, s, t, n - 1);
    }
  }

  /** A call that does not return ends the run, as does the cut. */
  lemma InvokeCut(env: Env, p: Program, g: nat, pc: nat, s: State, n: nat, f: nat, args: seq<Word>)
    requires g < |p.functions| && pc < |p.functions[g].body|
    requires StepOf(env, p, p.functions[g].name, p.functions[g].body[pc], s) == Invoke(f, args)
    ensures n == 0 ==> Exec(env, p, g, pc, s, n) == Running(s.h)
    ensures n > 0 && !RunFn(env, p, f, args, s.h, n - 1).Done? ==> Exec(env, p, g, pc, s, n) == RunFn(env, p, f, args, s.h, n - 1)
  {
    hide StepOf, RunFn;
  }

  lemma {:induction false} InvokeStep(env: Env, p: Program, p': Program, certs: seq<Cert>, ks: set<nat>,
                                  g: nat, pc: nat, s: State, t: State, n: nat)
    requires ProgramPair(p, p', certs) && Closed(p, ks) && EnvFits(env, p, ks) && g in ks
    requires pc < |p.functions[g].body| && Rel(certs[g], pc, s, t)
    requires Certified(p.functions[g], p'.functions[g], certs[g])
    requires StepOf(env, p, p.functions[g].name, p.functions[g].body[pc], s).Invoke?
    requires !certs[g].dead[pc]
    ensures Pos(certs[g].dead, pc) < |p'.functions[g].body|
    ensures Exec(env, p, g, pc, s, n) != Stuck ==>
              Exec(env, p', g, Pos(certs[g].dead, pc), t, n) == Exec(env, p, g, pc, s, n)
    decreases n, 0, |p.functions[g].body| - pc, 0
  {
    hide StepOf, Kept, StepOk, Rename, Exec, RunFn;
    var c := certs[g];
    var body := p.functions[g].body;
    var name := p.functions[g].name;
    var inst := body[pc];
    CompactAt(c.newBody, c.dead, pc);
    KeptAct(env, p, p', name, body, c, pc, s, t);
    StepFits(env, p, name, body, pc, s);
    var Invoke(f, args) := StepOf(env, p, name, inst, s);
    assert f in CallsOf(body);
    InvokeCut(env, p, g, pc, s, n, f, args);
    InvokeCut(env, p', g, Pos(c.dead, pc), t, n, f, args);
    if n > 0 {
      RunSimulates(env, p, p', certs, ks, f, args, s.h, n - 1);
      var r := RunFn(env, p, f, args, s.h, n - 1);
      if r.Done? {
        var a := Effect(r.value, r.h);
        RelAfter(env, name, body, c, pc, s, t, a);
        ExecSimulates(env, p, p', certs, ks, g, pc + 1, After(inst, s, a), After(c.newBody[pc], t, a), n - 1);
        ExecInvoke(env, p, g, pc, s, n, f, args, r);
        ExecInvoke(env, p', g, Pos(c.dead, pc), t, n, f, args, r);
      }
    }
  }

  lemma {:induction false} StraightStep(env: Env, p: Program, p': Program, certs: seq<Cert>, ks: set<nat>,
                                  g: nat, pc: nat, s: State, t: State, n: nat)
    requires ProgramPair(p, p', certs) && Closed(p, ks) && EnvFits(env, p, ks) && g in ks
    requires pc < |p.functions[g].body| && Rel(certs[g], pc, s, t)
    requires Certified(p.functions[g], p'.functions[g], certs[g])
    requires Straight(StepOf(env, p, p.functions[g].name, p.functions[g].body[pc], s))
    requires !certs[g].dead[pc]
    ensures Pos(certs[g].dead, pc) < |p'.functions[g].body|
    ensures Exec(env, p, g, pc, s, n) != Stuck ==>
              Exec(env, p', g, Pos(certs[g].dead, pc), t, n) == Exec(env, p, g, pc, s, n)
    decreases n, 0, |p.functions[g].body| - pc, 0
  {
    hide StepOf;
    var c := certs[g];
    var body := p.functions[g].body;
    var name := p.functions[g].name;
    var inst := body[pc];
    CompactAt(c.newBody, c.dead, pc);
    KeptAct(env, p, p', name, body, c, pc, s, t);
    StepFits(env, p, name, body, pc, s);
    var a := StepOf(env, p, name, inst, s);
    RelAfter(env, name, body, c, pc, s, t, a);
    ExecSimulates(env, p, p', certs, ks, g, pc + 1, After(inst, s, a), After(c.newBody[pc], t, a), n);
    ExecStraight(env, p, g, pc, s, n, a);
    ExecStraight(env, p', g, Pos(c.dead, pc), t, n, a);
  }
}
