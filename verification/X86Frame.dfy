/** The frame of a function, and what the selected operations compute. */
module X86Frame {
  import opened Words
  import opened Ir
  import opened X86
  import opened X86Select
  import opened X86Run

  // --- the frame ---

  function Slots(fn: Fn): nat {
    FrameSize(fn) / 8
  }

  /** Slot `k` below frame pointer `f`. */
  function SlotAddr(f: nat, k: nat): int {
    f - 8 * (k + 1)
  }

  lemma AlignUp(n: nat)
    ensures n <= X86Select.Align16(n) < n + 16 && X86Select.Align16(n) % 16 == 0
  {
    var q, r := n / 16, n % 16;
    assert n == 16 * q + r;
    if r == 0 {
      assert X86Select.Align16(n) == 16 * q;
    } else {
      assert X86Select.Align16(n) == 16 * (q + 1);
    }
  }

  lemma EighthOf(n: nat)
    requires n % 16 == 0
    ensures n == 8 * (n / 8)
  {
    assert n == 16 * (n / 16);
  }

  lemma SlotsFit(fn: Fn)
    ensures FrameSize(fn) == 8 * Slots(fn) && fn.localCount + fn.tempCount <= Slots(fn)
  {
    hide X86Select.Align16;
    AlignUp(SlotBytes(fn) + fn.extraStack);
    EighthOf(FrameSize(fn));
  }

  // --- the areas of the frame ---

  /** A range of addresses. */
  datatype Range = Range(lo: int, hi: int)

  predicate Apart(a: Range, b: Range) {
    a.hi <= b.lo || b.hi <= a.lo
  }

  predicate Within(a: Range, b: Range) {
    b.lo <= a.lo <= a.hi <= b.hi
  }

  function FrameRange(fn: Fn, f: nat): Range {
    Range(f - FrameSize(fn), f)
  }

  function LocalRange(f: nat, l: Local): Range {
    Range(SlotAddr(f, l), SlotAddr(f, l) + 8)
  }

  function TempRange(fn: Fn, f: nat, r: Reg): Range {
    Range(SlotAddr(f, fn.localCount + r), SlotAddr(f, fn.localCount + r) + 8)
  }

  /** The address of a stack object. */
  function ObjectAddr(fn: Fn, f: nat, offset: nat): int {
    f - SlotBytes(fn) - offset
  }

  /** A stack object: `offset` counts the bytes of all objects up to and with it. */
  function ObjectRange(fn: Fn, f: nat, offset: nat, size: nat): Range {
    Range(ObjectAddr(fn, f, offset), ObjectAddr(fn, f, offset) + size)
  }

  /** Locals, temporaries and stack objects lie in the frame and do not overlap:
      for all locals and temporaries, and for all objects that were given their
      offsets one after another. */
  lemma AreasApart(fn: Fn, f: nat, l: Local, l': Local, r: Reg, r': Reg, offset: nat, size: nat, offset': nat, size': nat)
    requires l < fn.localCount && l' < fn.localCount && r < fn.tempCount && r' < fn.tempCount
    requires size <= offset <= fn.extraStack && size' <= offset' <= fn.extraStack
    requires offset + size' <= offset' || offset' + size <= offset
    ensures Within(LocalRange(f, l), FrameRange(fn, f)) && Within(TempRange(fn, f, r), FrameRange(fn, f))
    ensures Within(ObjectRange(fn, f, offset, size), FrameRange(fn, f))
    ensures l != l' ==> Apart(LocalRange(f, l), LocalRange(f, l'))
    ensures r != r' ==> Apart(TempRange(fn, f, r), TempRange(fn, f, r'))
    ensures Apart(LocalRange(f, l), TempRange(fn, f, r))
    ensures Apart(LocalRange(f, l), ObjectRange(fn, f, offset, size))
    ensures Apart(TempRange(fn, f, r), ObjectRange(fn, f, offset, size))
    ensures Apart(ObjectRange(fn, f, offset, size), ObjectRange(fn, f, offset', size'))
    ensures FrameSize(fn) % 16 == 0
  {
    hide X86Select.Align16;
    AlignUp(SlotBytes(fn) + fn.extraStack);
  }

  /** The frame and two words below it are mapped, and so are the saved frame
      pointer and the return address above it. */
  ghost predicate Mapped(fn: Fn, f: nat, mem: map<nat, Word>) {
    && 8 * (Slots(fn) + 2) <= f < TWO63
    && (forall k: nat {:trigger SlotAddr(f, k)} :: k < Slots(fn) + 2 ==> SlotAddr(f, k) in mem)
    && f in mem && f + 8 in mem
  }

  predicate InFrame(fn: Fn, f: nat, m: Machine) {
    Get(m, RBP) == f && Get(m, RSP) == f - FrameSize(fn)
  }

  /** Memory from the frame pointer up is as in `mem0`. */
  ghost predicate AboveKept(f: nat, mem0: map<nat, Word>, mem: map<nat, Word>) {
    forall a {:trigger a in mem} :: a in mem0 && a >= f ==> a in mem && mem[a] == mem0[a]
  }

  /** Only slot `k` and the words below the frame differ. */
  ghost predicate OnlySlot(fn: Fn, f: nat, k: nat, mem: map<nat, Word>, mem': map<nat, Word>) {
    && mem.Keys == mem'.Keys
    && forall a: nat :: a in mem && a >= f - 8 * Slots(fn) && a != SlotAddr(f, k) ==> mem'[a] == mem[a]
  }

  lemma LoadSlot(m: Machine, f: nat, k: nat, r: R64)
    requires Get(m, RBP) == f < TWO63 && 8 * (k + 1) <= f && SlotAddr(f, k) in m.mem
    ensures Execute(Load(r, SlotMem(k)), m) == Some(Set(m, r, m.mem[SlotAddr(f, k)]))
  {
    SlotAddress(m, f, k);
  }

  lemma StoreSlot(m: Machine, f: nat, k: nat, r: R64)
    requires Get(m, RBP) == f < TWO63 && 8 * (k + 1) <= f && SlotAddr(f, k) in m.mem
    ensures Execute(Store(SlotMem(k), r), m) == Some(m.(mem := m.mem[SlotAddr(f, k) := Get(m, r)]))
  {
    SlotAddress(m, f, k);
  }

  lemma LeaSlot(m: Machine, f: nat, k: nat)
    requires Get(m, RBP) == f < TWO63 && 8 * (k + 1) <= f
    ensures 0 <= SlotAddr(f, k) < TWO64 && Execute(Lea(RAX, SlotMem(k)), m) == Some(Set(m, RAX, SlotAddr(f, k)))
  {
    SlotAddress(m, f, k);
  }

  lemma LeaObject(fn: Fn, m: Machine, f: nat, offset: nat)
    requires Get(m, RBP) == f < TWO63 && SlotBytes(fn) + offset <= f
    ensures 0 <= ObjectAddr(fn, f, offset) < TWO64
    ensures Execute(Lea(RAX, ObjectMem(fn, offset)), m) == Some(Set(m, RAX, ObjectAddr(fn, f, offset)))
  {
  }

  lemma SlotAddress(m: Machine, f: nat, k: nat)
    requires Get(m, RBP) == f < TWO63 && 8 * (k + 1) <= f
    ensures Address(m, SlotMem(k)) == SlotAddr(f, k)
  {
  }

  lemma OnlySlotAbove(fn: Fn, f: nat, k: nat, mem0: map<nat, Word>, mem: map<nat, Word>, mem': map<nat, Word>)
    requires AboveKept(f, mem0, mem) && OnlySlot(fn, f, k, mem, mem')
    ensures AboveKept(f, mem0, mem')
  {
    forall a {:trigger a in mem'} | a in mem0 && a >= f
      ensures a in mem' && mem'[a] == mem0[a]
    {
      assert a in mem;
    }
  }

  // --- operands and operations ---

  /** The detour over the stack loads both operands. */
  lemma OperandsLoad(fn: Fn, f: nat, m: Machine, a: Reg, b: Reg)
    requires Mapped(fn, f, m.mem) && FrameSize(fn) <= f && InFrame(fn, f, m) && a < fn.tempCount && b < fn.tempCount
    ensures SlotAddr(f, fn.localCount + a) in m.mem && SlotAddr(f, fn.localCount + b) in m.mem
    ensures SlotAddr(f, Slots(fn)) in m.mem && SlotAddr(f, Slots(fn) + 1) in m.mem
    ensures var x, y := m.mem[SlotAddr(f, fn.localCount + a)], m.mem[SlotAddr(f, fn.localCount + b)];
      ExecList(Operands(fn, a, b), m)
      == Some(m.(regs := m.regs[RBX := y][RAX := x],
                 mem := m.mem[SlotAddr(f, Slots(fn)) := x][SlotAddr(f, Slots(fn) + 1) := y]))
  {
    SlotsFit(fn);
    hide FrameSize, ExecList;
    OperandsRun(m, f, fn.localCount + a, fn.localCount + b, SlotAddr(f, Slots(fn)), SlotAddr(f, Slots(fn) + 1), Operands(fn, a, b));
  }

  lemma OperandsRun(m: Machine, f: nat, i: nat, j: nat, p: nat, q: nat, list: seq<Instr>)
    requires list == [Load(RAX, SlotMem(i)), Push(RAX), Load(RAX, SlotMem(j)), Push(RAX), Pop(RBX), Pop(RAX)]
    requires Get(m, RBP) == f < TWO63 && 8 * (i + 1) <= f && 8 * (j + 1) <= f && Get(m, RSP) == p + 8 < TWO63 && p == q + 8
    requires SlotAddr(f, i) in m.mem && SlotAddr(f, j) in m.mem && p in m.mem && q in m.mem && SlotAddr(f, j) != p
    ensures var x, y := m.mem[SlotAddr(f, i)], m.mem[SlotAddr(f, j)];
      ExecList(list, m) == Some(m.(regs := m.regs[RBX := y][RAX := x], mem := m.mem[p := x][q := y]))
  {
    hide Execute, ExecList, SlotMem, SlotAddr;
    var x, y := m.mem[SlotAddr(f, i)], m.mem[SlotAddr(f, j)];
    LoadSlot(m, f, i, RAX);
    var m1 := Set(m, RAX, x);
    DoPush(m1, RAX, p);
    var m2 := m1.(regs := m1.regs[RSP := p], mem := m1.mem[p := x]);
    LoadSlot(m2, f, j, RAX);
    var m3 := Set(m2, RAX, y);
    DoPush(m3, RAX, q);
    var m4 := m3.(regs := m3.regs[RSP := q], mem := m3.mem[q := y]);
    DoPop(m4, RBX, q);
    var m5 := m4.(regs := m4.regs[RSP := p][RBX := y]);
    DoPop(m5, RAX, p);
    var m6 := m5.(regs := m5.regs[RSP := p + 8][RAX := x]);
    SixSteps(list, m, m1, m2, m3, m4, m5, m6);
    RegsBack(m.regs, x, y, p, q);
  }

  /** `rsp` and `rax` have their last values. */
  lemma RegsBack(g: Regs, x: Word, y: Word, p: Word, q: Word)
    requires p + 8 == g[RSP]
    ensures g[RAX := x][RSP := p][RAX := y][RSP := q][RSP := p][RBX := y][RSP := p + 8][RAX := x] == g[RBX := y][RAX := x]
  {
  }

  lemma SixSteps(list: seq<Instr>, m: Machine, m1: Machine, m2: Machine, m3: Machine, m4: Machine, m5: Machine, m6: Machine)
    requires |list| == 6 && Execute(list[0], m) == Some(m1) && Execute(list[1], m1) == Some(m2) && Execute(list[2], m2) == Some(m3)
    requires Execute(list[3], m3) == Some(m4) && Execute(list[4], m4) == Some(m5) && Execute(list[5], m5) == Some(m6)
    ensures ExecList(list, m) == Some(m6)
  {
    hide Execute;
    assert ExecList(list[6..], m6) == Some(m6);
    assert list[5..][1..] == list[6..] && list[4..][1..] == list[5..] && list[3..][1..] == list[4..];
    assert list[2..][1..] == list[3..] && list[1..][1..] == list[2..];
    assert ExecList(list[5..], m5) == Some(m6);
    assert ExecList(list[4..], m4) == Some(m6);
    assert ExecList(list[3..], m3) == Some(m6);
    assert ExecList(list[2..], m2) == Some(m6);
    assert ExecList(list[1..], m1) == Some(m6);
  }

  lemma DoPush(m: Machine, r: R64, sp: nat)
    requires Get(m, RSP) == sp + 8 < TWO63 && sp in m.mem && r != RSP
    ensures Execute(Push(r), m) == Some(m.(regs := m.regs[RSP := sp], mem := m.mem[sp := Get(m, r)]))
  {
  }

  lemma DoPop(m: Machine, r: R64, sp: nat)
    requires Get(m, RSP) == sp && sp + 8 < TWO63 && sp in m.mem && r != RSP
    ensures Execute(Pop(r), m) == Some(m.(regs := m.regs[RSP := sp + 8][r := m.mem[sp]]))
  {
  }

  lemma DoLeave(m: Machine, f: nat)
    requires Get(m, RBP) == f && f + 8 < TWO64 && f in m.mem
    ensures Execute(Leave, m) == Some(m.(regs := m.regs[RSP := f + 8][RBP := m.mem[f]]))
  {
    assert m.regs[RSP := f][RSP := f + 8] == m.regs[RSP := f + 8];
  }

  /** Only `RAX`, `RBX`, `RDX` and the flags change. */
  predicate Scratch(m: Machine, m': Machine) {
    && m'.mem == m.mem && m'.rip == m.rip
    && m'.regs == m.regs[RAX := Get(m', RAX)][RBX := Get(m', RBX)][RDX := Get(m', RDX)]
  }

  /** Each operation leaves in `RAX` what the IR instruction computes. */
  lemma OperateComputes(op: BinaryOp, k: TypeKind, m: Machine, v: Word)
    requires IsScalarIntKind(k) && (Ordering(op) ==> IsSignedIntKind(k))
    requires EvalInt(op, k, Get(m, RAX), Get(m, RBX)) == Some(v)
    ensures ExecList(Operate(op, k), m).Some?
    ensures var m' := ExecList(Operate(op, k), m).value; Get(m', RAX) == v && Scratch(m, m')
  {
    match op
    case Div => DivideComputes(k, m, v);
    case LogicAnd => LogicComputes(op, k, m, v);
    case LogicOr => LogicComputes(op, k, m, v);
    case Add => SimpleComputes(op, k, m, v);
    case Sub => SimpleComputes(op, k, m, v);
    case Mul => SimpleComputes(op, k, m, v);
    case BitAnd => SimpleComputes(op, k, m, v);
    case BitOr => SimpleComputes(op, k, m, v);
    case _ => CompareComputes(op, k, m, v);
  }

  lemma OneStep(i: Instr, m: Machine)
    requires Execute(i, m).Some?
    ensures ExecList([i], m) == Execute(i, m)
  {
    hide Execute;
    assert ExecList([i][1..], Execute(i, m).value) == Execute(i, m);
  }

  /** One instruction that leaves `v` in `RAX`. */
  lemma RaxStep(i: Instr, m: Machine, v: Word, flags: Option<Flags>)
    requires Execute(i, m) == Some(Set(m, RAX, v).(flags := flags))
    ensures ExecList([i], m).Some?
    ensures var m' := ExecList([i], m).value; Get(m', RAX) == v && Scratch(m, m')
  {
    hide Execute;
    OneStep(i, m);
    assert Set(m, RAX, v).regs == m.regs[RAX := v][RBX := Get(m, RBX)][RDX := Get(m, RDX)];
  }

  lemma SimpleComputes(op: BinaryOp, k: TypeKind, m: Machine, v: Word)
    requires op == Add || op == Sub || op == Mul || op == BitAnd || op == BitOr
    requires IsScalarIntKind(k) && EvalInt(op, k, Get(m, RAX), Get(m, RBX)) == Some(v)
    ensures ExecList(Operate(op, k), m).Some?
    ensures var m' := ExecList(Operate(op, k), m).value; Get(m', RAX) == v && Scratch(m, m')
  {
    hide And64, Or64, Xor64, Wrap, ExecList, Scratch, IsScalarIntKind, IsSignedIntKind, TruncDiv;
    var i := Operate(op, k)[0];
    RaxStep(i, m, v, if i.Imul? then None else AluFlags(i.op, Get(m, RAX), Get(m, RBX)));
  }

  lemma TwoSteps(a: Instr, b: Instr, m: Machine, m1: Machine)
    requires Execute(a, m) == Some(m1) && Execute(b, m1).Some?
    ensures ExecList([a, b], m) == Execute(b, m1)
  {
    hide Execute;
    assert [a, b][1..] == [b];
    OneStep(b, m1);
  }

  lemma ThreeSteps(list: seq<Instr>, m: Machine, m1: Machine, m2: Machine, m3: Machine)
    requires |list| == 3 && Execute(list[0], m) == Some(m1) && Execute(list[1], m1) == Some(m2) && Execute(list[2], m2) == Some(m3)
    ensures ExecList(list, m) == Some(m3)
  {
    hide Execute;
    assert list[1..] == [list[1], list[2]];
    TwoSteps(list[1], list[2], m1, m2);
  }

  /** `setcc` and `movzx` leave the condition as 0 or 1. */
  lemma FlagToReg(c: Cond, r: R64, m: Machine, f: Flags)
    requires m.flags == Some(f)
    ensures Execute(Setcc(c, r), m).Some?
    ensures Execute(Movzx(r, r), Execute(Setcc(c, r), m).value) == Some(Set(m, r, FromBool(Satisfied(c, f))))
  {
    var v := Get(m, r);
    var b := FromBool(Satisfied(c, f));
    LowByte(v, b);
    var m1 := Execute(Setcc(c, r), m).value;
    assert m1.regs[r := b] == m.regs[r := b];
  }

  lemma LowByte(v: Word, b: Word)
    requires b < 2
    ensures 0 <= v - v % 256 + b < TWO64 && (v - v % 256 + b) % 256 == b
  {
  }

  lemma CompareStep(m: Machine)
    ensures Execute(Alu(CmpOp, RAX, RBX), m) == Some(m.(flags := Some(Compare(Get(m, RAX), Get(m, RBX)))))
  {
    hide Compare, And64, Or64, Xor64, Wrap;
    assert m.regs[RAX := Get(m, RAX)] == m.regs;
  }

  lemma CompareComputes(op: BinaryOp, k: TypeKind, m: Machine, v: Word)
    requires op == Eq || op == NotEq || Ordering(op)
    requires IsScalarIntKind(k) && (Ordering(op) ==> IsSignedIntKind(k))
    requires EvalInt(op, k, Get(m, RAX), Get(m, RBX)) == Some(v)
    ensures ExecList(Operate(op, k), m).Some?
    ensures var m' := ExecList(Operate(op, k), m).value; Get(m', RAX) == v && Scratch(m, m')
  {
    hide Compare, Satisfied, And64, Or64, Execute, ExecList, Wrap, TruncDiv;
    var a, b := Get(m, RAX), Get(m, RBX);
    var list := Operate(op, k);
    CompareOrder(a, b);
    CompareStep(m);
    var m1 := m.(flags := Some(Compare(a, b)));
    FlagToReg(list[1].c, RAX, m1, Compare(a, b));
    var m2 := Execute(list[1], m1).value;
    var m3 := Execute(list[2], m2).value;
    ThreeSteps(list, m, m1, m2, m3);
  }

  lemma TestStep(r: R64, m: Machine)
    ensures Execute(Alu(TestOp, r, r), m) == Some(m.(flags := Some(Test(Get(m, r), Get(m, r)))))
  {
    hide Test, And64, Or64, Xor64, Wrap;
    assert m.regs[r := Get(m, r)] == m.regs;
  }

  /** `test r, r` and the two that follow: whether the register is not zero. */
  lemma TruthComputes(r: R64, m: Machine) returns (m': Machine)
    ensures ExecList(Truth(r), m) == Some(m')
    ensures m' == Set(m, r, FromBool(Get(m, r) != 0)).(flags := m'.flags)
  {
    hide Test, Satisfied, And64, Execute, ExecList;
    var a := Get(m, r);
    var list := Truth(r);
    TestSelf(a);
    TestStep(r, m);
    var m1 := m.(flags := Some(Test(a, a)));
    FlagToReg(NotEqual, r, m1, Test(a, a));
    var m2 := Execute(list[1], m1).value;
    m' := Execute(list[2], m2).value;
    ThreeSteps(list, m, m1, m2, m');
  }

  lemma TestSelf(a: Word)
    ensures Satisfied(NotEqual, Test(a, a)) <==> a != 0
  {
    Pow2Is64();
    AndSelf(64, a);
  }

  lemma {:induction false} AndSelf(n: nat, a: int)
    requires 0 <= a < Pow2(n)
    ensures AndBits(n, a, a) == a
  {
    if n > 0 {
      AndSelf(n - 1, a / 2);
    }
  }

  lemma BoolBits(p: bool, q: bool)
    ensures And64(FromBool(p), FromBool(q)) == FromBool(p && q)
    ensures Or64(FromBool(p), FromBool(q)) == FromBool(p || q)
  {
    Pow2Is64();
    AndZero(63, 0);
    OrZero(63, 0);
  }

  lemma LogicStep(op: BinaryOp, m: Machine, p: bool, q: bool)
    requires op == LogicAnd || op == LogicOr
    requires Get(m, RAX) == FromBool(p) && Get(m, RBX) == FromBool(q)
    ensures var last := if op == LogicAnd then Alu(AndOp, RAX, RBX) else Alu(OrOp, RAX, RBX);
      Execute(last, m) == Some(Set(m, RAX, FromBool(if op == LogicAnd then p && q else p || q)).(flags := None))
  {
    hide And64, Or64, Xor64, Wrap;
    BoolBits(p, q);
  }

  lemma LogicList(op: BinaryOp, k: TypeKind)
    requires op == LogicAnd || op == LogicOr
    ensures Operate(op, k) == Truth(RAX) + (Truth(RBX) + [if op == LogicAnd then Alu(AndOp, RAX, RBX) else Alu(OrOp, RAX, RBX)])
  {
    hide Truth;
  }

  lemma LogicComputes(op: BinaryOp, k: TypeKind, m: Machine, v: Word)
    requires op == LogicAnd || op == LogicOr
    requires IsScalarIntKind(k) && EvalInt(op, k, Get(m, RAX), Get(m, RBX)) == Some(v)
    ensures ExecList(Operate(op, k), m).Some?
    ensures var m' := ExecList(Operate(op, k), m).value; Get(m', RAX) == v && Scratch(m, m')
  {
    hide And64, Or64, Truth, Execute, ExecList, Wrap, TruncDiv, Operate, Scratch, EvalInt;
    var a, b := Get(m, RAX), Get(m, RBX);
    var last := if op == LogicAnd then Alu(AndOp, RAX, RBX) else Alu(OrOp, RAX, RBX);
    var m1 := TruthComputes(RAX, m);
    var m2 := TruthComputes(RBX, m1);
    LogicStep(op, m2, a != 0, b != 0);
    OneStep(last, m2);
    ListAppend(Truth(RBX), [last], m1);
    ListAppend(Truth(RAX), Truth(RBX) + [last], m);
    LogicList(op, k);
    LogicLast(op, k, m, m1, m2, v);
  }

  lemma LogicLast(op: BinaryOp, k: TypeKind, m: Machine, m1: Machine, m2: Machine, v: Word)
    requires op == LogicAnd || op == LogicOr
    requires IsScalarIntKind(k) && EvalInt(op, k, Get(m, RAX), Get(m, RBX)) == Some(v)
    requires m1 == Set(m, RAX, FromBool(Get(m, RAX) != 0)).(flags := m1.flags)
    requires m2 == Set(m1, RBX, FromBool(Get(m1, RBX) != 0)).(flags := m2.flags)
    ensures var p, q := Get(m, RAX) != 0, Get(m, RBX) != 0;
      var m' := Set(m2, RAX, FromBool(if op == LogicAnd then p && q else p || q)).(flags := None);
      Get(m', RAX) == v && Scratch(m, m')
  {
    hide And64, Or64, Wrap, TruncDiv;
  }

  /** The division instruction, once `RDX` is prepared. */
  lemma DivideStep(i: Instr, m: Machine, m1: Machine, q: Word, r: Word)
    requires i == Idiv(RBX) || i == Udiv(RBX)
    requires m1.mem == m.mem && m1.rip == m.rip && m1.regs == m.regs[RDX := Get(m1, RDX)]
    requires (if i.Idiv? then SignedDivide(Get(m1, RDX), Get(m1, RAX), Get(m1, RBX))
              else UnsignedDivide(Get(m1, RDX), Get(m1, RAX), Get(m1, RBX))) == Some((q, r))
    ensures Execute(i, m1).Some?
    ensures var m' := Execute(i, m1).value; Get(m', RAX) == q && Scratch(m, m')
  {
    hide SignedDivide, UnsignedDivide;
  }

  lemma DivideComputes(k: TypeKind, m: Machine, v: Word)
    requires IsScalarIntKind(k) && EvalInt(Div, k, Get(m, RAX), Get(m, RBX)) == Some(v)
    ensures ExecList(Operate(Div, k), m).Some?
    ensures var m' := ExecList(Operate(Div, k), m).value; Get(m', RAX) == v && Scratch(m, m')
  {
    hide ExecList, Scratch, Wrap, TruncDiv, And64, Or64;
    if IsSignedIntKind(k) {
      SignedQuotient(m, v);
    } else {
      UnsignedQuotient(m, v);
    }
  }

  lemma SignedQuotient(m: Machine, v: Word)
    requires EvalInt(Div, I64, Get(m, RAX), Get(m, RBX)) == Some(v)
    ensures ExecList([Cqo, Idiv(RBX)], m).Some?
    ensures var m' := ExecList([Cqo, Idiv(RBX)], m).value; Get(m', RAX) == v && Scratch(m, m')
  {
    hide And64, Or64, SignedDivide, TruncDiv, Wrap, ExecList, Scratch;
    var a, b := Get(m, RAX), Get(m, RBX);
    SignedComputes(a, b);
    var m1 := Set(m, RDX, if a >= TWO63 then TWO64 - 1 else 0);
    var r := SignedDivide(Get(m1, RDX), a, b).value.1;
    DivideStep(Idiv(RBX), m, m1, v, r);
    TwoSteps(Cqo, Idiv(RBX), m, m1);
  }

  lemma UnsignedQuotient(m: Machine, v: Word)
    requires EvalInt(Div, U64, Get(m, RAX), Get(m, RBX)) == Some(v)
    ensures ExecList([Alu(XorOp, RDX, RDX), Udiv(RBX)], m).Some?
    ensures var m' := ExecList([Alu(XorOp, RDX, RDX), Udiv(RBX)], m).value; Get(m', RAX) == v && Scratch(m, m')
  {
    hide And64, Or64, Xor64, UnsignedDivide, TruncDiv, Wrap, ExecList, Scratch;
    var a, b := Get(m, RAX), Get(m, RBX);
    XorZero(Get(m, RDX));
    UnsignedComputes(a, b);
    var m1 := Set(m, RDX, 0).(flags := None);
    DivideStep(Udiv(RBX), m, m1, v, UnsignedDivide(0, a, b).value.1);
    TwoSteps(Alu(XorOp, RDX, RDX), Udiv(RBX), m, m1);
  }

  lemma XorZero(a: Word)
    ensures Xor64(a, a) == 0
  {
    Pow2Is64();
    XorSelf(64, a);
  }

  /** `cqo` and `idiv` divide the signed values; the quotient fits unless the
      division overflows. */
  lemma SignedComputes(a: Word, b: Word)
    requires b != 0 && !(Signed(a) == -TWO63 && Signed(b) == -1)
    ensures var r := SignedDivide(if a >= TWO63 then TWO64 - 1 else 0, a, b);
      r.Some? && r.value.0 == Wrap(TruncDiv(Signed(a), Signed(b)))
  {
    CqoExtends(a);
    TruncDivRange(Signed(a), Signed(b));
  }

  lemma UnsignedComputes(a: Word, b: Word)
    requires b != 0
    ensures var r := UnsignedDivide(0, a, b); r.Some? && r.value.0 == Wrap(a / b)
  {
    DivBound(a, b);
  }

  // --- unsigned order ---

  /** The instructions selected for an ordering of an unsigned kind compare as for
      a signed one: they compute what the IR asks for exactly if the operands have
      the same top bit. */
  lemma UnsignedOrder(op: BinaryOp, k: TypeKind, m: Machine)
    requires Ordering(op) && IsScalarIntKind(k) && !IsSignedIntKind(k)
    ensures ExecList(Operate(op, k), m).Some? && Scratch(m, ExecList(Operate(op, k), m).value)
    ensures var a, b := Get(m, RAX), Get(m, RBX);
      EvalInt(op, k, a, b) == Some(Get(ExecList(Operate(op, k), m).value, RAX)) <==> (a < TWO63 <==> b < TWO63)
  {
    hide Compare, Satisfied, And64, Or64, Execute, ExecList, Wrap, TruncDiv, Scratch;
    var a, b := Get(m, RAX), Get(m, RBX);
    assert Operate(op, k) == Operate(op, I64);
    CompareComputes(op, I64, m, EvalInt(op, I64, a, b).value);
    OrderDiffers(op, k, a, b);
  }

  /** Signed and unsigned order agree exactly on operands with the same top bit. */
  lemma OrderDiffers(op: BinaryOp, k: TypeKind, a: Word, b: Word)
    requires Ordering(op) && IsScalarIntKind(k) && !IsSignedIntKind(k)
    ensures EvalInt(op, k, a, b) == EvalInt(op, I64, a, b) <==> (a < TWO63 <==> b < TWO63)
  {
    hide Wrap, TruncDiv;
  }

  /** 2^63 is not below 1, but the selected instructions leave 1 in `rax`. */
  lemma UnsignedOrderFails(m: Machine)
    requires Get(m, RAX) == TWO63 && Get(m, RBX) == 1
    ensures EvalInt(Lt, U64, TWO63, 1) == Some(0)
    ensures ExecList(Operate(Lt, U64), m).Some? && Get(ExecList(Operate(Lt, U64), m).value, RAX) == 1
  {
    hide Compare, Satisfied, And64, Or64, Execute, ExecList, Wrap, TruncDiv;
    assert Operate(Lt, U64) == Operate(Lt, I64);
    CompareComputes(Lt, I64, m, 1);
  }
}
