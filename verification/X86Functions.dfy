/** Whole functions: the machine code follows the IR from entry to return. */
module X86Functions {
  import opened Words
  import opened Ir
  import opened Semantics
  import opened WellFormed
  import opened X86
  import opened X86Select
  import opened X86Frame
  import opened X86Correct
  import R = X86Run

  /** A function in an image, with the label positions of the whole image. */
  datatype Place = Place(image: R.Image, labelPos: map<Label, nat>, fn: Fn, addr: nat)

  /** The code of the instructions from `n` on. */
  function RestAsm(fn: Fn, n: nat): seq<Asm>
    requires n <= |fn.body| && AllSelectable(fn.body)
    decreases |fn.body| - n
  {
    if n == |fn.body| then [] else Select(fn, fn.body[n]) + RestAsm(fn, n + 1)
  }

  lemma {:induction false} BodySplit(fn: Fn, n: nat)
    requires n <= |fn.body| && AllSelectable(fn.body)
    ensures BodyAsm(fn, |fn.body|) == BodyAsm(fn, n) + RestAsm(fn, n)
    decreases |fn.body| - n
  {
    hide Select, Selectable;
    if n < |fn.body| {
      BodySplit(fn, n + 1);
      assert BodyAsm(fn, n) + (Select(fn, fn.body[n]) + RestAsm(fn, n + 1))
          == (BodyAsm(fn, n) + Select(fn, fn.body[n])) + RestAsm(fn, n + 1);
    }
  }

  /** Where the code of instruction `pc` begins. */
  function InstAddr(c: Place, pc: nat): nat
    requires pc <= |c.fn.body| && AllSelectable(c.fn.body)
  {
    c.addr + Size(Plain(Prologue(c.fn))) + Size(BodyAsm(c.fn, pc))
  }

  predicate LabelPlaced(c: Place, q: nat)
    requires q < |c.fn.body| && AllSelectable(c.fn.body)
  {
    c.fn.body[q].LabelMark? ==>
      c.fn.body[q].id in c.labelPos && c.image.org + c.labelPos[c.fn.body[q].id] == InstAddr(c, q)
  }

  /** The code is in place, and its labels have the addresses of their marks. */
  ghost predicate Placed(c: Place) {
    && AllSelectable(c.fn.body) && Bounded(c.fn) && R.ImageOk(c.image)
    && R.CodeAt(c.image, c.addr, FnAsm(c.fn), c.labelPos) && c.addr >= c.image.org
    && (forall q: nat {:trigger LabelPlaced(c, q)} :: q < |c.fn.body| ==> LabelPlaced(c, q))
    && c.addr + Size(FnAsm(c.fn)) < TWO63
  }

  lemma FnSplit(fn: Fn, pc: nat)
    requires pc <= |fn.body| && AllSelectable(fn.body)
    ensures FnAsm(fn) == Plain(Prologue(fn)) + (BodyAsm(fn, pc) + RestAsm(fn, pc))
    ensures pc < |fn.body| ==>
              BodyAsm(fn, pc + 1) == BodyAsm(fn, pc) + Select(fn, fn.body[pc])
              && RestAsm(fn, pc) == Select(fn, fn.body[pc]) + RestAsm(fn, pc + 1)
  {
    hide Plain, Prologue, Select;
    BodySplit(fn, pc);
  }

  /** At instruction `pc` its code lies in front of the rest. */
  lemma AtInst(c: Place, pc: nat)
    requires Placed(c) && pc <= |c.fn.body|
    ensures AllSelectable(c.fn.body) && c.image.org <= InstAddr(c, pc) < TWO63
    ensures R.CodeAt(c.image, InstAddr(c, pc), RestAsm(c.fn, pc), c.labelPos)
    ensures pc < |c.fn.body| ==>
              Selectable(c.fn.body[pc]) && InstBounded(c.fn, c.fn.body[pc])
              && InstAddr(c, pc + 1) == InstAddr(c, pc) + Size(Select(c.fn, c.fn.body[pc]))
              && RestAsm(c.fn, pc) == Select(c.fn, c.fn.body[pc]) + RestAsm(c.fn, pc + 1)
  {
    hide Select, R.CodeAt, Prologue, Plain, Size, BodyAsm, RestAsm, FnAsm, R.ImageOk;
    var fn := c.fn;
    FnSplit(fn, pc);
    R.CodeSplit(c.image, c.addr, Plain(Prologue(fn)), BodyAsm(fn, pc) + RestAsm(fn, pc), c.labelPos);
    R.CodeSplit(c.image, c.addr + Size(Plain(Prologue(fn))), BodyAsm(fn, pc), RestAsm(fn, pc), c.labelPos);
    SizeAppend(Plain(Prologue(fn)), BodyAsm(fn, pc) + RestAsm(fn, pc));
    SizeAppend(BodyAsm(fn, pc), RestAsm(fn, pc));
    if pc < |fn.body| {
      SizeAppend(BodyAsm(fn, pc), Select(fn, fn.body[pc]));
    }
  }

  // --- one IR instruction ---

  lemma StraightIsStraight(fn: Fn, inst: Inst)
    requires Selectable(inst)
    ensures R.AllStraight(StraightCode(fn, inst))
  {
    hide Operate;
    if inst.Binary? {
      OperateStraight(inst.op, inst.kind);
    }
  }

  lemma OperateStraight(op: BinaryOp, k: TypeKind)
    ensures R.AllStraight(Operate(op, k))
  {
  }

  lemma RelRip(fn: Fn, f: nat, s: State, m: Machine, rip: Word)
    requires Rel(fn, f, s, m)
    ensures Rel(fn, f, s, m.(rip := rip))
  {
    var m1 := m.(rip := rip);
    forall l: Local {:trigger LocalHolds(fn, f, s, m1, l)} ensures LocalHolds(fn, f, s, m1, l) {
      assert LocalHolds(fn, f, s, m, l);
    }
    forall r: Reg {:trigger RegHolds(fn, f, s, m1, r)} ensures RegHolds(fn, f, s, m1, r) {
      assert RegHolds(fn, f, s, m, r);
    }
  }

  /** The machine goes from the code of `pc` to the code of the next instruction. */
  lemma GoNext(c: Place, f: nat, pc: nat, s: State, m: Machine, a: Act, mem0: map<nat, Word>) returns (m': Machine, k: nat)
    requires Placed(c) && pc < |c.fn.body| && m.rip == InstAddr(c, pc) && Straight(a)
    requires Selectable(c.fn.body[pc]) && InstDone(c.fn, f, c.fn.body[pc], s, m, a, mem0)
    requires Select(c.fn, c.fn.body[pc]) == Plain(StraightCode(c.fn, c.fn.body[pc]))
    ensures R.Leads(c.image, m, m', k) && m'.rip == InstAddr(c, pc + 1)
    ensures Rel(c.fn, f, After(c.fn.body[pc], s, a), m') && AboveKept(f, mem0, m'.mem)
  {
    hide Placed, R.CodeAt, StraightCode, Select, R.Leads, InstAddr, Rel, AboveKept, RestAsm, Size, Plain;
    var inst := c.fn.body[pc];
    AtInst(c, pc);
    var list := StraightCode(c.fn, inst);
    StraightIsStraight(c.fn, inst);
    m' := R.DoList(c.image, m, list, RestAsm(c.fn, pc + 1), c.labelPos);
    k := |list|;
    RelRip(c.fn, f, After(inst, s, a), R.ExecList(list, m).value, m'.rip);
  }

  lemma StraightSelect(fn: Fn, inst: Inst)
    requires Simple(inst)
    requires Selectable(inst)
    ensures Select(fn, inst) == Plain(StraightCode(fn, inst))
  {
  }

  /** A label of the function has the address of its mark. */
  lemma LabelAddr(c: Place, l: Label, q: nat)
    requires Placed(c) && q < |c.fn.body| && c.fn.body[q] == LabelMark(l)
    ensures AllSelectable(c.fn.body)
    ensures l in c.labelPos && c.image.org + c.labelPos[l] == InstAddr(c, q) < TWO63
  {
    hide InstAddr, R.CodeAt, R.ImageOk;
    AtInst(c, q);
    assert LabelPlaced(c, q);
  }

  /** `Rel` does not mention `RAX`, the flags or `rip`. */
  lemma RelRax(fn: Fn, f: nat, s: State, m: Machine, m': Machine)
    requires Rel(fn, f, s, m) && m'.mem == m.mem && m'.regs == m.regs[RAX := Get(m', RAX)]
    ensures Rel(fn, f, s, m')
  {
    forall l: Local {:trigger LocalHolds(fn, f, s, m', l)} ensures LocalHolds(fn, f, s, m', l) {
      assert LocalHolds(fn, f, s, m, l);
    }
    forall r: Reg {:trigger RegHolds(fn, f, s, m', r)} ensures RegHolds(fn, f, s, m', r) {
      assert RegHolds(fn, f, s, m, r);
    }
  }

  /** The register of a branch has been loaded and tested. */
  lemma BranchTest(c: Place, f: nat, pc: nat, s: State, m: Machine) returns (m': Machine)
    requires Placed(c) && pc < |c.fn.body| && c.fn.body[pc].Branch? && m.rip == InstAddr(c, pc)
    requires Rel(c.fn, f, s, m) && c.fn.body[pc].cond in s.regs
    ensures AllSelectable(c.fn.body)
    ensures R.Leads(c.image, m, m', 2) && m'.rip < TWO63
    ensures var b := c.fn.body[pc];
      && m' == m.(rip := m'.rip, regs := m.regs[RAX := s.regs[b.cond]], flags := Some(Test(s.regs[b.cond], s.regs[b.cond])))
      && R.CodeAt(c.image, m'.rip, [JccTo(NotEqual, b.thenLabel)] + ([JmpTo(b.elseLabel)] + RestAsm(c.fn, pc + 1)), c.labelPos)
  {
    hide Placed, R.CodeAt, InstAddr, R.Leads, Rel, Test, Select, RestAsm;
    var fn := c.fn;
    var b := fn.body[pc];
    AtInst(c, pc);
    var list := [Load(RAX, TempSlot(fn, b.cond)), Alu(TestOp, RAX, RAX)];
    var rest := RestAsm(fn, pc + 1);
    BranchCode(fn, b, rest);
    TestLoads(fn, f, s, m, b.cond);
    m' := R.DoList(c.image, m, list, [JccTo(NotEqual, b.thenLabel)] + ([JmpTo(b.elseLabel)] + rest), c.labelPos);
  }

  /** Branch: the register is tested and one of two jumps taken. */
  lemma BranchSim(c: Place, f: nat, pc: nat, s: State, m: Machine, q: nat) returns (m': Machine, k: nat)
    requires Placed(c) && pc < |c.fn.body| && c.fn.body[pc].Branch? && m.rip == InstAddr(c, pc)
    requires Rel(c.fn, f, s, m) && c.fn.body[pc].cond in s.regs
    requires var b := c.fn.body[pc];
      q < |c.fn.body| && c.fn.body[q] == LabelMark(if s.regs[b.cond] != 0 then b.thenLabel else b.elseLabel)
    ensures R.Leads(c.image, m, m', k) && k >= 1 && m'.rip == InstAddr(c, q)
    ensures Rel(c.fn, f, s, m') && m'.mem == m.mem
  {
    hide Placed, R.CodeAt, InstAddr, R.Leads, Rel, Satisfied, Test, Select, RestAsm;
    var b := c.fn.body[pc];
    var v := s.regs[b.cond];
    LabelAddr(c, if v != 0 then b.thenLabel else b.elseLabel, q);
    var m1 := BranchTest(c, f, pc, s, m);
    var rest := RestAsm(c.fn, pc + 1);
    TestSelf(v);
    var m2 := R.JccStep(c.image, m1, NotEqual, b.thenLabel, [JmpTo(b.elseLabel)] + rest, c.labelPos, Test(v, v));
    R.LeadsTrans(c.image, m, m1, 2, m2, 1);
    m', k := m2, 3;
    if v == 0 {
      m' := R.JumpStep(c.image, m2, b.elseLabel, rest, c.labelPos);
      R.LeadsTrans(c.image, m, m2, 3, m', 1);
      k := 4;
    }
    RelRax(c.fn, f, s, m, m');
  }

  lemma BranchCode(fn: Fn, b: Inst, rest: seq<Asm>)
    requires b.Branch?
    ensures Select(fn, b) + rest
         == Plain([Load(RAX, TempSlot(fn, b.cond)), Alu(TestOp, RAX, RAX)])
            + ([JccTo(NotEqual, b.thenLabel)] + ([JmpTo(b.elseLabel)] + rest))
  {
  }

  lemma ReturnCode(fn: Fn, inst: Inst, rest: seq<Asm>)
    requires inst.Return?
    ensures Select(fn, inst) + rest == Plain([Load(RAX, TempSlot(fn, inst.value)), Instr.Leave]) + ([Ins(Ret)] + rest)
  {
  }

  /** Loading and testing a register. */
  lemma TestLoads(fn: Fn, f: nat, s: State, m: Machine, r: Reg)
    requires Rel(fn, f, s, m) && r in s.regs
    ensures var list := [Load(RAX, TempSlot(fn, r)), Alu(TestOp, RAX, RAX)];
      && R.AllStraight(list)
      && R.ExecList(list, m) == Some(Set(m, RAX, s.regs[r]).(flags := Some(Test(s.regs[r], s.regs[r]))))
  {
    hide Rel, Test;
    RegSlot(fn, f, s, m, r);
    RelFrame(fn, f, s, m);
    LoadSlot(m, f, fn.localCount + r, RAX);
    var m1 := Set(m, RAX, s.regs[r]);
    assert m1.regs[RAX := s.regs[r]] == m1.regs;
    TwoSteps(Load(RAX, TempSlot(fn, r)), Alu(TestOp, RAX, RAX), m, m1);
  }

  // --- return ---

  /** Back in the caller: result in `RAX`, stack and frame pointers restored. */
  ghost predicate Returned(f: nat, mem0: map<nat, Word>, v: Word, m: Machine) {
    && f in mem0 && f + 8 in mem0
    && m.rip == mem0[f + 8] && Get(m, RAX) == v && Get(m, RSP) == f + 16 && Get(m, RBP) == mem0[f]
    && AboveKept(f, mem0, m.mem)
  }

  lemma LeaveLoads(fn: Fn, f: nat, s: State, m: Machine, r: Reg)
    requires Rel(fn, f, s, m) && r in s.regs
    ensures f in m.mem && f + 8 in m.mem && f + 16 < TWO64
    ensures var list := [Load(RAX, TempSlot(fn, r)), Instr.Leave];
      && R.AllStraight(list)
      && R.ExecList(list, m) == Some(m.(regs := m.regs[RAX := s.regs[r]][RSP := f + 8][RBP := m.mem[f]]))
  {
    hide Rel;
    RegSlot(fn, f, s, m, r);
    RelFrame(fn, f, s, m);
    LoadSlot(m, f, fn.localCount + r, RAX);
    var m1 := Set(m, RAX, s.regs[r]);
    DoLeave(m1, f);
    hide Execute;
    TwoSteps(Load(RAX, TempSlot(fn, r)), Instr.Leave, m, m1);
  }

  lemma ReturnSim(c: Place, f: nat, pc: nat, s: State, m: Machine, mem0: map<nat, Word>) returns (m': Machine, k: nat)
    requires Placed(c) && pc < |c.fn.body| && c.fn.body[pc].Return? && m.rip == InstAddr(c, pc)
    requires Rel(c.fn, f, s, m) && c.fn.body[pc].value in s.regs && AboveKept(f, mem0, m.mem)
    requires f in mem0 && f + 8 in mem0
    ensures R.Leads(c.image, m, m', k) && Returned(f, mem0, s.regs[c.fn.body[pc].value], m')
  {
    hide Placed, R.CodeAt, InstAddr, R.Leads, Rel, Select, RestAsm, AboveKept;
    var fn := c.fn;
    var r := fn.body[pc].value;
    AtInst(c, pc);
    var list := [Load(RAX, TempSlot(fn, r)), Instr.Leave];
    var rest := RestAsm(fn, pc + 1);
    ReturnCode(fn, fn.body[pc], rest);
    LeaveLoads(fn, f, s, m, r);
    var m1 := R.DoList(c.image, m, list, [Ins(Ret)] + rest, c.labelPos);
    m' := RetStep(c, f, m1, rest);
    R.LeadsTrans(c.image, m, m1, 2, m', 1);
    k := 3;
    AboveAt(f, mem0, m.mem);
  }

  lemma AboveAt(f: nat, mem0: map<nat, Word>, mem: map<nat, Word>)
    requires AboveKept(f, mem0, mem) && f in mem0 && f + 8 in mem0
    ensures f in mem && f + 8 in mem && mem[f] == mem0[f] && mem[f + 8] == mem0[f + 8]
  {
  }

  lemma RetStep(c: Place, f: nat, m: Machine, rest: seq<Asm>) returns (m': Machine)
    requires R.CodeAt(c.image, m.rip, [Ins(Ret)] + rest, c.labelPos)
    requires Get(m, RSP) == f + 8 && f + 16 < TWO64 && f + 8 in m.mem
    ensures R.Leads(c.image, m, m', 1) && m' == m.(regs := m.regs[RSP := f + 16], rip := m.mem[f + 8])
  {
    hide R.CodeAt, R.Leads, RawBytes;
    R.CodeTargets(c.image, m.rip, [Ins(Ret)] + rest, c.labelPos);
    m' := m.(regs := m.regs[RSP := f + 16], rip := m.mem[f + 8]);
    R.DoStep(c.image, m, Ins(Ret), rest, c.labelPos, m');
  }

  // --- the body ---

  /** What the machine makes of an IR outcome. */
  ghost predicate Follows(image: R.Image, f: nat, mem0: map<nat, Word>, r: Outcome, n: nat, m: Machine, m': Machine, k: nat) {
    && (r.Done? ==> R.Leads(image, m, m', k) && Returned(f, mem0, r.value, m'))
    && (r.Running? ==> R.Leads(image, m, m', k) && k >= n)
  }

  lemma FollowsAfter(image: R.Image, f: nat, mem0: map<nat, Word>, r: Outcome, n: nat, n': nat, m: Machine, m1: Machine, k1: nat,
                     m': Machine, k: nat)
    requires R.Leads(image, m, m1, k1) && Follows(image, f, mem0, r, n', m1, m', k) && n <= n' + k1
    ensures Follows(image, f, mem0, r, n, m, m', k1 + k)
  {
    hide R.Leads, Returned;
    if r.Done? || r.Running? {
      R.LeadsTrans(image, m, m1, k1, m', k);
    }
  }

  /** From any instruction on, for as many jumps as one likes: when the IR
      returns, so does the code, with the same value; while the IR runs, the code
      runs. */
  lemma {:induction false} BodyRuns(env: Env, p: Program, g: nat, c: Place, f: nat, pc: nat, s: State, m: Machine,
                                    mem0: map<nat, Word>, n: nat) returns (m': Machine, k: nat)
    requires g < |p.functions| && p.functions[g] == c.fn && Placed(c) && pc <= |c.fn.body|
    requires FrameAddresses(env, c.fn, f) && forall l :: !InMemory(env, c.fn.name, l)
    requires Rel(c.fn, f, s, m) && AboveKept(f, mem0, m.mem) && f in mem0 && f + 8 in mem0 && m.rip == InstAddr(c, pc)
    ensures Follows(c.image, f, mem0, Exec(env, p, g, pc, s, n), n, m, m', k)
    decreases n, |c.fn.body| - pc
  {
    hide FrameAddresses, Placed, Rel, AboveKept, StepOf, InstAddr, R.Leads, Returned, Follows, Selectable, InstBounded, After, Exec, RestAsm;
    m', k := m, 0;
    if pc == |c.fn.body| {
      ExecEnd(env, p, g, s, n);
      FollowsStuck(c.image, f, mem0, n, m);
      return;
    }
    InstKind(c, pc);
    var inst := c.fn.body[pc];
    if Simple(inst) {
      var a, m1, k1 := StraightStep(env, p, g, c, f, pc, s, m, mem0, n);
      if a == Trap {
        FollowsStuck(c.image, f, mem0, n, m);
      } else {
        m', k := BodyRuns(env, p, g, c, f, pc + 1, After(inst, s, a), m1, mem0, n);
        FollowsAfter(c.image, f, mem0, Exec(env, p, g, pc, s, n), n, n, m, m1, k1, m', k);
        k := k1 + k;
      }
    } else if inst.LabelMark? {
      MarkStep(env, p, g, c, pc, s, n);
      m', k := BodyRuns(env, p, g, c, f, pc + 1, s, m, mem0, n);
    } else {
      m', k := ControlRuns(env, p, g, c, f, pc, s, m, mem0, n);
    }
  }

  lemma StraightStep(env: Env, p: Program, g: nat, c: Place, f: nat, pc: nat, s: State, m: Machine,
                     mem0: map<nat, Word>, n: nat) returns (a: Act, m': Machine, k: nat)
    requires g < |p.functions| && p.functions[g] == c.fn && Placed(c) && pc < |c.fn.body|
    requires FrameAddresses(env, c.fn, f) && forall l :: !InMemory(env, c.fn.name, l)
    requires Rel(c.fn, f, s, m) && AboveKept(f, mem0, m.mem) && m.rip == InstAddr(c, pc)
    requires Simple(c.fn.body[pc])
    ensures a == Trap ==> Exec(env, p, g, pc, s, n) == Stuck
    ensures a != Trap ==>
              && Straight(a) && Exec(env, p, g, pc, s, n) == Exec(env, p, g, pc + 1, After(c.fn.body[pc], s, a), n)
              && R.Leads(c.image, m, m', k) && m'.rip == InstAddr(c, pc + 1)
              && Rel(c.fn, f, After(c.fn.body[pc], s, a), m') && AboveKept(f, mem0, m'.mem)
  {
    hide FrameAddresses, Placed, Rel, AboveKept, StepOf, InstAddr, InstDone, R.Leads, Select, StraightCode, After, Exec;
    m', k := m, 0;
    AtInst(c, pc);
    var inst := c.fn.body[pc];
    a := StepOf(env, p, c.fn.name, inst, s);
    StraightSim(env, p, c.fn, f, inst, s, m, mem0);
    if a == Trap {
      ExecTrap(env, p, g, pc, s, n);
    } else {
      StraightSelect(c.fn, inst);
      m', k := GoNext(c, f, pc, s, m, a, mem0);
      ExecStraight(env, p, g, pc, s, n, a);
    }
  }

  lemma ExecTrap(env: Env, p: Program, g: nat, pc: nat, s: State, n: nat)
    requires g < |p.functions| && pc < |p.functions[g].body|
    requires StepOf(env, p, p.functions[g].name, p.functions[g].body[pc], s) == Trap
    ensures Exec(env, p, g, pc, s, n) == Stuck
  {
    hide StepOf;
  }

  lemma FollowsStuck(image: R.Image, f: nat, mem0: map<nat, Word>, n: nat, m: Machine)
    ensures Follows(image, f, mem0, Stuck, n, m, m, 0)
  {
  }

  lemma ExecEnd(env: Env, p: Program, g: nat, s: State, n: nat)
    requires g < |p.functions|
    ensures Exec(env, p, g, |p.functions[g].body|, s, n) == Stuck
  {
  }

  lemma InstKind(c: Place, pc: nat)
    requires Placed(c) && pc < |c.fn.body|
    ensures var i := c.fn.body[pc];
      || Simple(i)
      || i.LabelMark?
      || (i.Return? || i.Jump? || i.Branch?)
  {
    hide R.CodeAt, R.ImageOk;
    assert Selectable(c.fn.body[pc]);
  }

  /** A label takes no code. */
  lemma MarkStep(env: Env, p: Program, g: nat, c: Place, pc: nat, s: State, n: nat)
    requires g < |p.functions| && p.functions[g] == c.fn
    requires Placed(c) && pc < |c.fn.body| && c.fn.body[pc].LabelMark?
    ensures AllSelectable(c.fn.body) && InstAddr(c, pc + 1) == InstAddr(c, pc)
    ensures Exec(env, p, g, pc, s, n) == Exec(env, p, g, pc + 1, s, n)
  {
    hide InstAddr, R.CodeAt, Exec, RestAsm;
    AtInst(c, pc);
    var l := c.fn.body[pc].id;
    assert Select(c.fn, c.fn.body[pc]) == [Mark(l)];
    assert [Mark(l)][1..] == [];
    ExecStraight(env, p, g, pc, s, n, Act.Skip);
  }

  lemma {:induction false} ControlRuns(env: Env, p: Program, g: nat, c: Place, f: nat, pc: nat, s: State, m: Machine,
                                       mem0: map<nat, Word>, n: nat) returns (m': Machine, k: nat)
    requires g < |p.functions| && p.functions[g] == c.fn && Placed(c) && pc < |c.fn.body|
    requires FrameAddresses(env, c.fn, f) && forall l :: !InMemory(env, c.fn.name, l)
    requires Rel(c.fn, f, s, m) && AboveKept(f, mem0, m.mem) && f in mem0 && f + 8 in mem0 && m.rip == InstAddr(c, pc)
    requires var i := c.fn.body[pc]; i.Return? || i.Jump? || i.Branch?
    ensures Follows(c.image, f, mem0, Exec(env, p, g, pc, s, n), n, m, m', k)
    decreases n, |c.fn.body| - pc, 0
  {
    hide FrameAddresses, Placed, Rel, AboveKept, StepOf, InstAddr, R.Leads, Returned, Follows, Select;
    m', k := m, 0;
    var inst := c.fn.body[pc];
    var a := StepOf(env, p, c.fn.name, inst, s);
    ControlAct(env, p, c.fn.name, inst, s);
    if a == Trap {
      FollowsStuck(c.image, f, mem0, n, m);
    } else if a.Finish? {
      m', k := ReturnSim(c, f, pc, s, m, mem0);
      FollowsDone(c.image, f, mem0, Exec(env, p, g, pc, s, n), n, m, m', k);
    } else if n == 0 {
      FollowsCut(c.image, f, mem0, s.h, m);
    } else if FindLabel(c.fn.body, a.target, 0).None? {
      FollowsStuck(c.image, f, mem0, n, m);
    } else {
      var q := FindLabel(c.fn.body, a.target, 0).value;
      var m1, k1 := TakeJump(c, f, pc, s, m, q, a.target);
      m', k := BodyRuns(env, p, g, c, f, q, s, m1, mem0, n - 1);
      FollowsAfter(c.image, f, mem0, Exec(env, p, g, pc, s, n), n, n - 1, m, m1, k1, m', k);
      k := k1 + k;
    }
  }

  lemma FollowsDone(image: R.Image, f: nat, mem0: map<nat, Word>, r: Outcome, n: nat, m: Machine, m': Machine, k: nat)
    requires r.Done? && R.Leads(image, m, m', k) && Returned(f, mem0, r.value, m')
    ensures Follows(image, f, mem0, r, n, m, m', k)
  {
  }

  lemma FollowsCut(image: R.Image, f: nat, mem0: map<nat, Word>, h: History, m: Machine)
    ensures Follows(image, f, mem0, Running(h), 0, m, m, 0)
  {
  }

  lemma ControlAct(env: Env, p: Program, name: string, inst: Inst, s: State)
    requires inst.Return? || inst.Jump? || inst.Branch?
    ensures var a := StepOf(env, p, name, inst, s);
      && (a == Trap || a.Finish? || a.Go?)
      && (a.Finish? <==> a != Trap && inst.Return?)
      && (a.Finish? ==> inst.value in s.regs && a.v == s.regs[inst.value])
      && (a.Go? && inst.Jump? ==> a.target == inst.target)
      && (a.Go? && inst.Branch? ==>
            inst.cond in s.regs && a.target == if s.regs[inst.cond] != 0 then inst.thenLabel else inst.elseLabel)
  {
    var vs := Vals(s.regs, Uses(inst));
    if inst.Return? {
      assert Uses(inst)[0] == inst.value;
    } else if inst.Branch? {
      assert Uses(inst)[0] == inst.cond;
    }
  }

  lemma TakeJump(c: Place, f: nat, pc: nat, s: State, m: Machine, q: nat, l: Label) returns (m': Machine, k: nat)
    requires Placed(c) && pc < |c.fn.body| && (c.fn.body[pc].Jump? || c.fn.body[pc].Branch?) && m.rip == InstAddr(c, pc)
    requires Rel(c.fn, f, s, m) && q < |c.fn.body| && c.fn.body[q] == LabelMark(l)
    requires c.fn.body[pc].Jump? ==> l == c.fn.body[pc].target
    requires c.fn.body[pc].Branch? ==>
               var b := c.fn.body[pc]; b.cond in s.regs && l == if s.regs[b.cond] != 0 then b.thenLabel else b.elseLabel
    ensures R.Leads(c.image, m, m', k) && k >= 1 && m'.rip == InstAddr(c, q)
    ensures Rel(c.fn, f, s, m') && m'.mem == m.mem
  {
    hide Placed, Rel, InstAddr, R.Leads, R.CodeAt;
    if c.fn.body[pc].Jump? {
      AtInst(c, pc);
      LabelAddr(c, l, q);
      m' := R.JumpStep(c.image, m, l, RestAsm(c.fn, pc + 1), c.labelPos);
      k := 1;
      assert m'.regs == m.regs[RAX := Get(m', RAX)];
      RelRax(c.fn, f, s, m, m');
    } else {
      m', k := BranchSim(c, f, pc, s, m, q);
    }
  }
}
