/** The selected code does what the IR does. */
module X86Correct {
  import opened Words
  import opened Ir
  import opened Semantics
  import opened WellFormed
  import opened X86
  import opened X86Select
  import opened X86Frame
  import R = X86Run

  // --- IR states and machine states ---

  /** Local `l`, if it has a value, is in its slot. */
  predicate LocalHolds(fn: Fn, f: nat, s: State, m: Machine, l: Local) {
    l in s.locals ==> l < fn.localCount && SlotAddr(f, l) in m.mem && m.mem[SlotAddr(f, l)] == s.locals[l]
  }

  predicate RegHolds(fn: Fn, f: nat, s: State, m: Machine, r: Reg) {
    r in s.regs ==>
      r < fn.tempCount && SlotAddr(f, fn.localCount + r) in m.mem && m.mem[SlotAddr(f, fn.localCount + r)] == s.regs[r]
  }

  /** Locals and registers of the IR are in their slots. */
  ghost predicate Rel(fn: Fn, f: nat, s: State, m: Machine) {
    && Mapped(fn, f, m.mem) && FrameSize(fn) <= f && InFrame(fn, f, m)
    && (forall l: Local {:trigger LocalHolds(fn, f, s, m, l)} :: LocalHolds(fn, f, s, m, l))
    && (forall r: Reg {:trigger RegHolds(fn, f, s, m, r)} :: RegHolds(fn, f, s, m, r))
  }

  lemma MappedSame(fn: Fn, f: nat, mem: map<nat, Word>, mem': map<nat, Word>)
    requires Mapped(fn, f, mem) && mem.Keys == mem'.Keys
    ensures Mapped(fn, f, mem')
  {
    assert forall a :: a in mem <==> a in mem';
  }

  /** Writing a register's slot. */
  lemma RelReg(fn: Fn, f: nat, s: State, m: Machine, d: Reg, v: Word, m': Machine)
    requires Rel(fn, f, s, m) && InFrame(fn, f, m') && d < fn.tempCount
    requires OnlySlot(fn, f, fn.localCount + d, m.mem, m'.mem)
    requires SlotAddr(f, fn.localCount + d) in m'.mem && m'.mem[SlotAddr(f, fn.localCount + d)] == v
    ensures Rel(fn, f, s.(regs := s.regs[d := v]), m')
  {
    SlotsFit(fn);
    MappedSame(fn, f, m.mem, m'.mem);
    var s1 := s.(regs := s.regs[d := v]);
    forall l: Local {:trigger LocalHolds(fn, f, s1, m', l)} ensures LocalHolds(fn, f, s1, m', l) {
      assert LocalHolds(fn, f, s, m, l);
    }
    forall r: Reg {:trigger RegHolds(fn, f, s1, m', r)} ensures RegHolds(fn, f, s1, m', r) {
      assert RegHolds(fn, f, s, m, r);
    }
  }

  /** Writing a local's slot. */
  lemma RelLocal(fn: Fn, f: nat, s: State, m: Machine, l: Local, v: Word, m': Machine)
    requires Rel(fn, f, s, m) && InFrame(fn, f, m') && l < fn.localCount
    requires OnlySlot(fn, f, l, m.mem, m'.mem) && SlotAddr(f, l) in m'.mem && m'.mem[SlotAddr(f, l)] == v
    ensures Rel(fn, f, s.(locals := s.locals[l := v]), m')
  {
    SlotsFit(fn);
    MappedSame(fn, f, m.mem, m'.mem);
    var s1 := s.(locals := s.locals[l := v]);
    forall l1: Local {:trigger LocalHolds(fn, f, s1, m', l1)} ensures LocalHolds(fn, f, s1, m', l1) {
      assert LocalHolds(fn, f, s, m, l1);
    }
    forall r: Reg {:trigger RegHolds(fn, f, s1, m', r)} ensures RegHolds(fn, f, s1, m', r) {
      assert RegHolds(fn, f, s, m, r);
    }
  }

  /** Registers and locals of an instruction have slots. */
  predicate InstBounded(fn: Fn, inst: Inst) {
    && (forall r :: r in Uses(inst) ==> r < fn.tempCount)
    && (Def(inst).Some? ==> Def(inst).value < fn.tempCount)
    && (inst.LoadLocal? ==> inst.local < fn.localCount)
    && (inst.StoreLocal? ==> inst.local < fn.localCount)
    && (inst.AddrOf? ==> inst.local < fn.localCount)
    && (inst.Alloca? ==> inst.offset <= fn.extraStack)
  }

  /** The environment's answers on addresses in the frame are those of the frame. */
  ghost predicate FrameAddresses(env: Env, fn: Fn, f: nat) {
    && (forall l: Local, h: History {:trigger (SlotAddress(l), h) in env.query} ::
          (SlotAddress(l), h) in env.query && l < fn.localCount ==> env.query[(SlotAddress(l), h)] == SlotAddr(f, l))
    && (forall o: nat, h: History {:trigger (StackAddress(o), h) in env.query} ::
          (StackAddress(o), h) in env.query && o <= fn.extraStack ==> env.query[(StackAddress(o), h)] == ObjectAddr(fn, f, o))
  }

  predicate Bounded(fn: Fn) {
    forall i :: 0 <= i < |fn.body| ==> Selectable(fn.body[i]) && InstBounded(fn, fn.body[i])
  }

  /** The value of an operand is in its slot. */
  lemma RegSlot(fn: Fn, f: nat, s: State, m: Machine, r: Reg)
    requires Rel(fn, f, s, m) && r in s.regs
    ensures r < fn.tempCount && SlotAddr(f, fn.localCount + r) in m.mem
    ensures m.mem[SlotAddr(f, fn.localCount + r)] == s.regs[r]
    ensures 8 * (fn.localCount + r + 1) <= f
  {
    SlotsFit(fn);
    assert RegHolds(fn, f, s, m, r);
  }

  lemma LocalAt(fn: Fn, f: nat, s: State, m: Machine, l: Local)
    requires Rel(fn, f, s, m) && l < fn.localCount
    ensures SlotAddr(f, l) in m.mem && 8 * (l + 1) <= f
    ensures l in s.locals ==> m.mem[SlotAddr(f, l)] == s.locals[l]
  {
    SlotsFit(fn);
    assert SlotAddr(f, l) in m.mem && LocalHolds(fn, f, s, m, l);
  }

  lemma TempAt(fn: Fn, f: nat, s: State, m: Machine, r: Reg)
    requires Rel(fn, f, s, m) && r < fn.tempCount
    ensures SlotAddr(f, fn.localCount + r) in m.mem && 8 * (fn.localCount + r + 1) <= f
  {
    SlotsFit(fn);
    assert SlotAddr(f, fn.localCount + r) in m.mem;
  }

  // --- straight instructions ---

  /** What the code of a straight instruction must lead to. */
  ghost predicate InstDone(fn: Fn, f: nat, inst: Inst, s: State, m: Machine, a: Act, mem0: map<nat, Word>)
    requires Selectable(inst) && Straight(a)
  {
    && R.ExecList(StraightCode(fn, inst), m).Some?
    && var m' := R.ExecList(StraightCode(fn, inst), m).value;
       Rel(fn, f, After(inst, s, a), m') && AboveKept(f, mem0, m'.mem)
  }

  /** The last instruction of the code stores `RAX` in the slot of the result. */
  lemma StoreResult(fn: Fn, f: nat, s: State, m: Machine, m1: Machine, d: Reg, v: Word, mem0: map<nat, Word>)
    returns (m': Machine)
    requires Rel(fn, f, s, m) && AboveKept(f, mem0, m.mem) && d < fn.tempCount
    requires InFrame(fn, f, m1) && Get(m1, RAX) == v
    requires m1.mem.Keys == m.mem.Keys
    requires forall a: nat :: a in m.mem && a >= f - 8 * Slots(fn) ==> m1.mem[a] == m.mem[a]
    ensures Execute(Store(TempSlot(fn, d), RAX), m1) == Some(m')
    ensures Rel(fn, f, s.(regs := s.regs[d := v]), m') && AboveKept(f, mem0, m'.mem)
  {
    TempAt(fn, f, s, m, d);
    var k := fn.localCount + d;
    StoreSlot(m1, f, k, RAX);
    m' := m1.(mem := m1.mem[SlotAddr(f, k) := v]);
    assert OnlySlot(fn, f, k, m.mem, m'.mem);
    RelReg(fn, f, s, m, d, v, m');
    OnlySlotAbove(fn, f, k, mem0, m.mem, m'.mem);
  }

  lemma ConstSim(fn: Fn, f: nat, inst: Inst, s: State, m: Machine, mem0: map<nat, Word>)
    requires inst.LoadConst? && InstBounded(fn, inst) && Rel(fn, f, s, m) && AboveKept(f, mem0, m.mem)
    ensures InstDone(fn, f, inst, s, m, Value(Unsigned(inst.imm)), mem0)
  {
    hide Rel, AboveKept, Execute, Unsigned;
    var v := Unsigned(inst.imm);
    var m1 := Set(m, RAX, v);
    ImmStep(m, inst.imm);
    RelFrame(fn, f, s, m);
    var m2 := StoreResult(fn, f, s, m, m1, inst.dst, v, mem0);
    TwoSteps(MovImm(RAX, inst.imm), Store(TempSlot(fn, inst.dst), RAX), m, m1);
  }

  lemma ImmStep(m: Machine, v: Int64)
    ensures Execute(MovImm(RAX, v), m) == Some(Set(m, RAX, Unsigned(v)))
  {
  }

  lemma RelFrame(fn: Fn, f: nat, s: State, m: Machine)
    requires Rel(fn, f, s, m)
    ensures FrameSize(fn) <= f < TWO63 && InFrame(fn, f, m) && Mapped(fn, f, m.mem) && Get(m, RBP) == f
  {
  }

  lemma LoadSim(fn: Fn, f: nat, inst: Inst, s: State, m: Machine, mem0: map<nat, Word>)
    requires inst.LoadLocal? && InstBounded(fn, inst) && inst.local in s.locals && Rel(fn, f, s, m) && AboveKept(f, mem0, m.mem)
    ensures InstDone(fn, f, inst, s, m, Value(s.locals[inst.local]), mem0)
  {
    hide Rel, AboveKept, Execute;
    var v := s.locals[inst.local];
    LocalAt(fn, f, s, m, inst.local);
    RelFrame(fn, f, s, m);
    LoadSlot(m, f, inst.local, RAX);
    var m1 := Set(m, RAX, v);
    var m2 := StoreResult(fn, f, s, m, m1, inst.dst, v, mem0);
    TwoSteps(Load(RAX, LocalSlot(inst.local)), Store(TempSlot(fn, inst.dst), RAX), m, m1);
  }

  lemma StoreSim(fn: Fn, f: nat, inst: Inst, s: State, m: Machine, mem0: map<nat, Word>)
    requires inst.StoreLocal? && InstBounded(fn, inst) && inst.src in s.regs && Rel(fn, f, s, m) && AboveKept(f, mem0, m.mem)
    ensures InstDone(fn, f, inst, s, m, Put(inst.local, s.regs[inst.src]), mem0)
  {
    hide Rel, AboveKept, Execute;
    var v := s.regs[inst.src];
    var l := inst.local;
    RegSlot(fn, f, s, m, inst.src);
    LocalAt(fn, f, s, m, l);
    RelFrame(fn, f, s, m);
    LoadSlot(m, f, fn.localCount + inst.src, RAX);
    var m1 := Set(m, RAX, v);
    StoreSlot(m1, f, l, RAX);
    var m2 := m1.(mem := m1.mem[SlotAddr(f, l) := v]);
    assert OnlySlot(fn, f, l, m.mem, m2.mem);
    RelLocal(fn, f, s, m, l, v, m2);
    OnlySlotAbove(fn, f, l, mem0, m.mem, m2.mem);
    TwoSteps(Load(RAX, TempSlot(fn, inst.src)), Store(LocalSlot(l), RAX), m, m1);
  }

  /** The address of a local or of a stack object. */
  lemma AddressSim(fn: Fn, f: nat, inst: Inst, s: State, m: Machine, mem0: map<nat, Word>, v: Word)
    requires inst.AddrOf? || inst.Alloca?
    requires InstBounded(fn, inst) && Rel(fn, f, s, m) && AboveKept(f, mem0, m.mem)
    requires v == if inst.AddrOf? then SlotAddr(f, inst.local) else ObjectAddr(fn, f, inst.offset)
    ensures InstDone(fn, f, inst, s, m, Value(v), mem0)
  {
    hide Rel, AboveKept, Execute, FrameSize;
    RelFrame(fn, f, s, m);
    AddressFits(fn, inst);
    var lea := if inst.AddrOf? then Lea(RAX, LocalSlot(inst.local)) else Lea(RAX, ObjectMem(fn, inst.offset));
    if inst.AddrOf? {
      LeaSlot(m, f, inst.local);
    } else {
      LeaObject(fn, m, f, inst.offset);
    }
    var m1 := Set(m, RAX, v);
    var m2 := StoreResult(fn, f, s, m, m1, inst.dst, v, mem0);
    TwoSteps(lea, Store(TempSlot(fn, inst.dst), RAX), m, m1);
  }

  lemma AddressFits(fn: Fn, inst: Inst)
    requires InstBounded(fn, inst)
    ensures inst.AddrOf? ==> 8 * (inst.local + 1) <= FrameSize(fn)
    ensures inst.Alloca? ==> SlotBytes(fn) + inst.offset <= FrameSize(fn)
  {
    hide X86Select.Align16;
    AlignUp(SlotBytes(fn) + fn.extraStack);
  }

  lemma BinarySim(fn: Fn, f: nat, inst: Inst, s: State, m: Machine, mem0: map<nat, Word>, v: Word)
    requires inst.Binary? && Selectable(inst) && InstBounded(fn, inst) && inst.lhs in s.regs && inst.rhs in s.regs
    requires EvalInt(inst.op, inst.kind, s.regs[inst.lhs], s.regs[inst.rhs]) == Some(v)
    requires Rel(fn, f, s, m) && AboveKept(f, mem0, m.mem)
    ensures InstDone(fn, f, inst, s, m, Value(v), mem0)
  {
    hide Rel, AboveKept, Execute, EvalInt, Operands, Operate;
    RegSlot(fn, f, s, m, inst.lhs);
    RegSlot(fn, f, s, m, inst.rhs);
    RelFrame(fn, f, s, m);
    OperandsLoad(fn, f, m, inst.lhs, inst.rhs);
    var m1 := R.ExecList(Operands(fn, inst.lhs, inst.rhs), m).value;
    OperateComputes(inst.op, inst.kind, m1, v);
    var m2 := R.ExecList(Operate(inst.op, inst.kind), m1).value;
    BinaryFrame(fn, f, m, m1, m2, s.regs[inst.lhs], s.regs[inst.rhs]);
    var m3 := StoreResult(fn, f, s, m, m2, inst.dst, v, mem0);
    var last := Store(TempSlot(fn, inst.dst), RAX);
    OneStep(last, m2);
    R.ListAppend(Operate(inst.op, inst.kind), [last], m1);
    R.ListAppend(Operands(fn, inst.lhs, inst.rhs), Operate(inst.op, inst.kind) + [last], m);
  }

  /** The detour over the stack stays below the frame. */
  lemma BinaryFrame(fn: Fn, f: nat, m: Machine, m1: Machine, m2: Machine, x: Word, y: Word)
    requires Mapped(fn, f, m.mem) && InFrame(fn, f, m) && FrameSize(fn) <= f
    requires SlotAddr(f, Slots(fn)) in m.mem && SlotAddr(f, Slots(fn) + 1) in m.mem
    requires m1 == m.(regs := m.regs[RBX := y][RAX := x],
                      mem := m.mem[SlotAddr(f, Slots(fn)) := x][SlotAddr(f, Slots(fn) + 1) := y])
    requires Scratch(m1, m2)
    ensures InFrame(fn, f, m2) && m2.mem.Keys == m.mem.Keys
    ensures forall a: nat :: a in m.mem && a >= f - 8 * Slots(fn) ==> m2.mem[a] == m.mem[a]
  {
  }

  /** What neither jumps nor marks a label. */
  predicate Simple(inst: Inst) {
    inst.LoadConst? || inst.LoadLocal? || inst.StoreLocal? || inst.Binary? || inst.AddrOf? || inst.Alloca?
  }

  /** Every straight instruction of the fragment. */
  lemma StraightSim(env: Env, p: Program, fn: Fn, f: nat, inst: Inst, s: State, m: Machine, mem0: map<nat, Word>)
    requires Selectable(inst) && InstBounded(fn, inst) && Rel(fn, f, s, m) && AboveKept(f, mem0, m.mem)
    requires forall l :: !InMemory(env, fn.name, l)
    requires FrameAddresses(env, fn, f)
    requires Simple(inst)
    ensures var a := StepOf(env, p, fn.name, inst, s); a == Trap || (Straight(a) && InstDone(fn, f, inst, s, m, a, mem0))
  {
    hide Rel, AboveKept, EvalInt, InstDone;
    var vs := Vals(s.regs, Uses(inst));
    var a := StepOf(env, p, fn.name, inst, s);
    match inst
    case LoadConst(_, _) => ConstSim(fn, f, inst, s, m, mem0);
    case LoadLocal(_, l) =>
      if l in s.locals {
        LoadSim(fn, f, inst, s, m, mem0);
      }
    case StoreLocal(_, r) =>
      if a != Trap {
        assert Uses(inst)[0] == r;
        StoreSim(fn, f, inst, s, m, mem0);
      }
    case AddrOf(_, l) =>
      if a != Trap {
        assert (SlotAddress(l), s.h) in env.query;
        AddressSim(fn, f, inst, s, m, mem0, a.v);
      }
    case Alloca(_, o) =>
      if a != Trap {
        assert (StackAddress(o), s.h) in env.query;
        AddressSim(fn, f, inst, s, m, mem0, a.v);
      }
    case Binary(op, _, x, y, k) =>
      if a != Trap {
        assert Uses(inst)[0] == x && Uses(inst)[1] == y;
        BinarySim(fn, f, inst, s, m, mem0, a.v);
      }
  }
}
