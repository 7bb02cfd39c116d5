/** Instruction selection for the integer, local and branch instructions, the
    layout of the code and the patching of its jumps. */
module X86Select {
  import opened Words
  import opened Ir
  import opened X86
  import opened Bytes
  import opened X86Encoding

  // --- what is selected ---

  predicate Ordering(op: BinaryOp) {
    op == Lt || op == Lte || op == Gt || op == Gte
  }

  /** The fragment; ordering comparisons are selected as signed whatever the kind. */
  predicate Selectable(inst: Inst) {
    match inst
    case Binary(op, _, _, _, k) => IsScalarIntKind(k) && (Ordering(op) ==> IsSignedIntKind(k))
    case LoadConst(_, _) => true
    case LoadLocal(_, _) => true
    case StoreLocal(_, _) => true
    case AddrOf(_, _) => true
    case Alloca(_, _) => true
    case Return(_) => true
    case Jump(_) => true
    case Branch(_, _, _) => true
    case LabelMark(_) => true
    case _ => false
  }

  /** `align16`: round up, in bytes. */
  function Align16(n: nat): nat {
    n + (16 - n % 16) % 16
  }

  /** The bytes of locals and temporaries. */
  function SlotBytes(fn: Fn): nat {
    (fn.localCount + fn.tempCount) * 8
  }

  /** The bytes `emit_prologue` reserves: locals, temporaries, the area of the
      stack objects, padding. */
  function FrameSize(fn: Fn): nat {
    Align16(SlotBytes(fn) + fn.extraStack)
  }

  /** The 8-byte slot with index `k` below the frame pointer. */
  function SlotMem(k: nat): Mem {
    Mem(RBP, None, 1, -8 * (k + 1))
  }

  function LocalSlot(l: Local): Mem {
    SlotMem(l)
  }

  function TempSlot(fn: Fn, r: Reg): Mem {
    SlotMem(fn.localCount + r)
  }

  /** The stack object whose end is `offset` bytes into its area. */
  function ObjectMem(fn: Fn, offset: nat): Mem {
    Mem(RBP, None, 1, -(SlotBytes(fn) + offset))
  }

  /** Code with symbolic jumps and label positions. */
  datatype Asm =
    | Ins(i: Instr)
    | JccTo(c: Cond, target: Label)
    | JmpTo(target: Label)
    | Mark(l: Label)

  /** The operands go through the stack. */
  function Operands(fn: Fn, a: Reg, b: Reg): seq<Instr> {
    [Load(RAX, TempSlot(fn, a)), Push(RAX), Load(RAX, TempSlot(fn, b)), Push(RAX), Pop(RBX), Pop(RAX)]
  }

  function CompareWith(c: Cond): seq<Instr> {
    [Alu(CmpOp, RAX, RBX), Setcc(c, RAX), Movzx(RAX, RAX)]
  }

  /** 1 for a non-zero register, else 0. */
  function Truth(r: R64): seq<Instr> {
    [Alu(TestOp, r, r), Setcc(NotEqual, r), Movzx(r, r)]
  }

  /** The operation on `RAX` and `RBX`. */
  function Operate(op: BinaryOp, k: TypeKind): seq<Instr> {
    match op
    case Add => [Alu(AddOp, RAX, RBX)]
    case Sub => [Alu(SubOp, RAX, RBX)]
    case Mul => [Imul(RAX, RBX)]
    case Div =>
      if IsSignedIntKind(k) then [Cqo, Idiv(RBX)] else [Alu(XorOp, RDX, RDX), Udiv(RBX)]
    case BitAnd => [Alu(AndOp, RAX, RBX)]
    case BitOr => [Alu(OrOp, RAX, RBX)]
    case LogicAnd => Truth(RAX) + Truth(RBX) + [Alu(AndOp, RAX, RBX)]
    case LogicOr => Truth(RAX) + Truth(RBX) + [Alu(OrOp, RAX, RBX)]
    case Eq => CompareWith(Equal)
    case NotEq => CompareWith(NotEqual)
    case Lt => CompareWith(Less)
    case Lte => CompareWith(LessEqual)
    case Gt => CompareWith(Greater)
    case Gte => CompareWith(GreaterEqual)
  }

  function Plain(list: seq<Instr>): (out: seq<Asm>)
    ensures |out| == |list|
    ensures forall k :: 0 <= k < |list| ==> out[k] == Ins(list[k])
  {
    seq(|list|, k requires 0 <= k < |list| => Ins(list[k]))
  }

  /** The instructions for what neither jumps nor marks a label. */
  function StraightCode(fn: Fn, inst: Inst): seq<Instr>
    requires Selectable(inst)
  {
    match inst
    case LoadConst(d, v) => [MovImm(RAX, v), Store(TempSlot(fn, d), RAX)]
    case LoadLocal(d, l) => [Load(RAX, LocalSlot(l)), Store(TempSlot(fn, d), RAX)]
    case StoreLocal(l, r) => [Load(RAX, TempSlot(fn, r)), Store(LocalSlot(l), RAX)]
    case AddrOf(d, l) => [Lea(RAX, LocalSlot(l)), Store(TempSlot(fn, d), RAX)]
    case Alloca(d, o) => [Lea(RAX, ObjectMem(fn, o)), Store(TempSlot(fn, d), RAX)]
    case Binary(op, d, a, b, k) => Operands(fn, a, b) + (Operate(op, k) + [Store(TempSlot(fn, d), RAX)])
    case _ => []
  }

  /** `emit_inst` */
  function Select(fn: Fn, inst: Inst): seq<Asm>
    requires Selectable(inst)
  {
    match inst
    case Return(r) => Plain([Load(RAX, TempSlot(fn, r)), Leave]) + [Ins(Ret)]
    case Jump(l) => [JmpTo(l)]
    case Branch(r, a, b) =>
      Plain([Load(RAX, TempSlot(fn, r)), Alu(TestOp, RAX, RAX)]) + [JccTo(NotEqual, a), JmpTo(b)]
    case LabelMark(l) => [Mark(l)]
    case _ => Plain(StraightCode(fn, inst))
  }

  function ArgReg(i: nat): R64
    requires i < 6
  {
    [RDI, RSI, RDX, RCX, R8, R9][i]
  }

  /** Argument `i` moves to its local: from a register, or from the caller's frame. */
  function MoveArg(i: nat): seq<Instr> {
    if i < 6 then [Store(LocalSlot(i), ArgReg(i))]
    else [Load(RAX, Mem(RBP, None, 1, 16 + (i - 6) * 8)), Store(LocalSlot(i), RAX)]
  }

  function MoveArgs(n: nat): seq<Instr> {
    if n == 0 then [] else MoveArgs(n - 1) + MoveArg(n - 1)
  }

  function Reserve(fn: Fn): seq<Instr> {
    if FrameSize(fn) > 0 then [SubRsp(FrameSize(fn))] else []
  }

  /** `emit_prologue`, System V. */
  function Prologue(fn: Fn): seq<Instr> {
    [Push(RBP), MovReg(RBP, RSP)] + Reserve(fn) + MoveArgs(fn.argCount)
  }

  predicate AllSelectable(body: seq<Inst>) {
    forall i :: 0 <= i < |body| ==> Selectable(body[i])
  }

  /** The code of the first `n` instructions. */
  function BodyAsm(fn: Fn, n: nat): seq<Asm>
    requires n <= |fn.body| && AllSelectable(fn.body)
  {
    if n == 0 then [] else BodyAsm(fn, n - 1) + Select(fn, fn.body[n - 1])
  }

  /** `emit_func` */
  function FnAsm(fn: Fn): seq<Asm>
    requires AllSelectable(fn.body)
  {
    Plain(Prologue(fn)) + BodyAsm(fn, |fn.body|)
  }

  // --- layout ---

  /** The bytes with all displacements zero. */
  function RawBytes(a: Asm): seq<Byte> {
    match a
    case Ins(i) => Encode(i)
    case JccTo(c, _) => Encode(Jcc(c, 0))
    case JmpTo(_) => Encode(Jmp(0))
    case Mark(_) => []
  }

  function Raw(list: seq<Asm>): seq<Byte> {
    if list == [] then [] else RawBytes(list[0]) + Raw(list[1..])
  }

  function Size(list: seq<Asm>): nat {
    if list == [] then 0 else |RawBytes(list[0])| + Size(list[1..])
  }

  /** Where a displacement has to be filled in, and for which label. */
  datatype Fixup = Fixup(field: nat, key: Label)

  /** The emitter's state. */
  datatype Text = Text(code: seq<Byte>, fixups: seq<Fixup>, labelPos: map<Label, nat>)

  function AddAsm(t: Text, a: Asm): Text {
    match a
    case Ins(i) => t.(code := t.code + Encode(i))
    case JccTo(c, l) =>
      var code := t.code + Encode(Jcc(c, 0));
      t.(code := code, fixups := t.fixups + [Fixup(|code| - 4, l)])
    case JmpTo(l) =>
      var code := t.code + Encode(Jmp(0));
      t.(code := code, fixups := t.fixups + [Fixup(|code| - 4, l)])
    case Mark(l) => t.(labelPos := t.labelPos[l := |t.code|])
  }

  function AddAll(t: Text, list: seq<Asm>): Text
    decreases |list|
  {
    if list == [] then t else AddAll(AddAsm(t, list[0]), list[1..])
  }

  lemma {:induction false} AddAppend(t: Text, a: seq<Asm>, b: seq<Asm>)
    ensures AddAll(t, a + b) == AddAll(AddAll(t, a), b)
    decreases |a|
  {
    if a == [] {
      assert a + b == b;
    } else {
      assert (a + b)[0] == a[0] && (a + b)[1..] == a[1..] + b;
      AddAppend(AddAsm(t, a[0]), a[1..], b);
    }
  }

  // --- patching ---

  function PatchAt(code: seq<Byte>, field: nat, disp: int): (out: seq<Byte>)
    requires field + 4 <= |code|
    ensures |out| == |code|
  {
    code[..field] + Bytes4(disp) + code[field + 4..]
  }

  predicate FixupOk(n: nat, f: Fixup, labelPos: map<Label, nat>) {
    f.field + 4 <= n && f.key in labelPos
  }

  predicate FixupsOk(code: seq<Byte>, fixups: seq<Fixup>, labelPos: map<Label, nat>) {
    forall k :: 0 <= k < |fixups| ==> FixupOk(|code|, fixups[k], labelPos)
  }

  /** `patch_fixups` */
  function PatchAll(code: seq<Byte>, fixups: seq<Fixup>, labelPos: map<Label, nat>): (out: seq<Byte>)
    requires FixupsOk(code, fixups, labelPos)
    ensures |out| == |code|
    decreases |fixups|
  {
    if fixups == [] then code
    else
      var f := fixups[0];
      assert FixupOk(|code|, f, labelPos);
      PatchAll(PatchAt(code, f.field, labelPos[f.key] - (f.field + 4)), fixups[1..], labelPos)
  }

  predicate TargetOk(a: Asm, labelPos: map<Label, nat>) {
    match a
    case JccTo(_, l) => l in labelPos
    case JmpTo(l) => l in labelPos
    case _ => true
  }

  predicate TargetsOk(list: seq<Asm>, labelPos: map<Label, nat>) {
    forall k :: 0 <= k < |list| ==> TargetOk(list[k], labelPos)
  }

  /** The instruction at position `pos`, its jump leading to its label. */
  function Resolved(a: Asm, pos: nat, labelPos: map<Label, nat>): Instr
    requires !a.Mark? && TargetOk(a, labelPos)
  {
    match a
    case Ins(i) => i
    case JccTo(c, l) => Jcc(c, labelPos[l] - (pos + |RawBytes(a)|))
    case JmpTo(l) => Jmp(labelPos[l] - (pos + |RawBytes(a)|))
  }

  function FinalBytes(a: Asm, pos: nat, labelPos: map<Label, nat>): (s: seq<Byte>)
    requires TargetOk(a, labelPos)
    ensures |s| == |RawBytes(a)|
  {
    if a.Mark? then [] else Encode(Resolved(a, pos, labelPos))
  }

  function Final(list: seq<Asm>, pos: nat, labelPos: map<Label, nat>): (s: seq<Byte>)
    requires TargetsOk(list, labelPos)
    ensures |s| == Size(list)
    decreases |list|
  {
    if list == [] then []
    else FinalBytes(list[0], pos, labelPos) + Final(list[1..], pos + |RawBytes(list[0])|, labelPos)
  }

  function FixupsOf(list: seq<Asm>, pos: nat): seq<Fixup>
    decreases |list|
  {
    if list == [] then []
    else
      var next := pos + |RawBytes(list[0])|;
      (match list[0]
       case JccTo(_, l) => [Fixup(next - 4, l)]
       case JmpTo(l) => [Fixup(next - 4, l)]
       case _ => []) + FixupsOf(list[1..], next)
  }

  function LabelsOf(list: seq<Asm>, pos: nat, acc: map<Label, nat>): map<Label, nat>
    decreases |list|
  {
    if list == [] then acc
    else LabelsOf(list[1..], pos + |RawBytes(list[0])|, if list[0].Mark? then acc[list[0].l := pos] else acc)
  }

  /** The emitted text in terms of the list. */
  lemma {:induction false} AddAllIs(t: Text, list: seq<Asm>)
    ensures var u := AddAll(t, list);
      && u.code == t.code + Raw(list)
      && u.fixups == t.fixups + FixupsOf(list, |t.code|)
      && u.labelPos == LabelsOf(list, |t.code|, t.labelPos)
    ensures |Raw(list)| == Size(list)
    decreases |list|
  {
    hide Encode, RawBytes, AddAsm;
    if list != [] {
      AddIs(t, list[0]);
      AddAllIs(AddAsm(t, list[0]), list[1..]);
    }
  }

  lemma AddIs(t: Text, a: Asm)
    ensures var u := AddAsm(t, a); var next := |t.code| + |RawBytes(a)|;
      && u.code == t.code + RawBytes(a)
      && u.fixups == t.fixups + (match a
                                 case JccTo(_, l) => [Fixup(next - 4, l)]
                                 case JmpTo(l) => [Fixup(next - 4, l)]
                                 case _ => [])
      && u.labelPos == if a.Mark? then t.labelPos[a.l := |t.code|] else t.labelPos
  {
  }

  /** Patching the jumps of a stretch of code resolves them and changes nothing
      else. */
  lemma {:induction false} PatchIs(front: seq<Byte>, list: seq<Asm>, back: seq<Byte>, labelPos: map<Label, nat>)
    requires TargetsOk(list, labelPos)
    ensures FixupsOk(front + Raw(list) + back, FixupsOf(list, |front|), labelPos)
    ensures PatchAll(front + Raw(list) + back, FixupsOf(list, |front|), labelPos)
         == front + Final(list, |front|, labelPos) + back
    decreases |list|
  {
    if list == [] {
      assert front + Raw(list) + back == front + back == front + Final(list, |front|, labelPos) + back;
    } else {
      assert TargetOk(list[0], labelPos);
      PatchIs(front + FinalBytes(list[0], |front|, labelPos), list[1..], back, labelPos);
      PatchFront(front, list, back, labelPos);
    }
  }

  lemma PatchFront(front: seq<Byte>, list: seq<Asm>, back: seq<Byte>, labelPos: map<Label, nat>)
    requires list != [] && TargetsOk(list, labelPos) && TargetOk(list[0], labelPos)
    requires var front1 := front + FinalBytes(list[0], |front|, labelPos);
      && FixupsOk(front1 + Raw(list[1..]) + back, FixupsOf(list[1..], |front1|), labelPos)
      && PatchAll(front1 + Raw(list[1..]) + back, FixupsOf(list[1..], |front1|), labelPos)
           == front1 + Final(list[1..], |front1|, labelPos) + back
    ensures FixupsOk(front + Raw(list) + back, FixupsOf(list, |front|), labelPos)
    ensures PatchAll(front + Raw(list) + back, FixupsOf(list, |front|), labelPos)
         == front + Final(list, |front|, labelPos) + back
  {
    hide PatchAt, RawBytes, FinalBytes, Raw, Final, FixupsOf, PatchAll;
    var a, rest := list[0], list[1..];
    var final := FinalBytes(a, |front|, labelPos);
    var tail := Raw(rest) + back;
    ListFront(list, |front|, labelPos);
    assert front + Raw(list) + back == front + RawBytes(a) + tail;
    assert front + final + Raw(rest) + back == front + final + tail;
    assert front + Final(list, |front|, labelPos) + back == front + final + Final(rest, |front + final|, labelPos) + back;
    if a.JccTo? || a.JmpTo? {
      PatchJump(front, a, tail, labelPos);
      var f := Fixup(|front| + |RawBytes(a)| - 4, a.target);
      PatchOne(front + RawBytes(a) + tail, f, FixupsOf(rest, |front + final|), labelPos);
    } else {
      PatchNothing(a, |front|, labelPos);
    }
  }

  lemma PatchOne(code: seq<Byte>, f: Fixup, rest: seq<Fixup>, labelPos: map<Label, nat>)
    requires FixupOk(|code|, f, labelPos) && FixupsOk(code, rest, labelPos)
    ensures FixupsOk(code, [f] + rest, labelPos)
    ensures PatchAll(code, [f] + rest, labelPos)
         == PatchAll(PatchAt(code, f.field, labelPos[f.key] - (f.field + 4)), rest, labelPos)
  {
    hide PatchAt, FixupsOk;
    FixupsPlus(code, f, rest, labelPos);
    var all := [f] + rest;
    assert all[0] == f && all[1..] == rest;
  }

  lemma FixupsPlus(code: seq<Byte>, f: Fixup, rest: seq<Fixup>, labelPos: map<Label, nat>)
    requires FixupOk(|code|, f, labelPos) && FixupsOk(code, rest, labelPos)
    ensures FixupsOk(code, [f] + rest, labelPos)
  {
  }

  /** The first element of a list. */
  lemma ListFront(list: seq<Asm>, pos: nat, labelPos: map<Label, nat>)
    requires list != [] && TargetsOk(list, labelPos) && TargetOk(list[0], labelPos)
    ensures Raw(list) == RawBytes(list[0]) + Raw(list[1..])
    ensures var next := pos + |RawBytes(list[0])|;
      && Final(list, pos, labelPos) == FinalBytes(list[0], pos, labelPos) + Final(list[1..], next, labelPos)
      && (if list[0].JccTo? || list[0].JmpTo?
          then |RawBytes(list[0])| >= 5 && FixupsOf(list, pos) == [Fixup(next - 4, list[0].target)] + FixupsOf(list[1..], next)
          else FixupsOf(list, pos) == FixupsOf(list[1..], next))
  {
    hide FinalBytes, RawBytes;
    JumpBytes(list[0]);
  }

  lemma JumpBytes(a: Asm)
    ensures a.JccTo? || a.JmpTo? ==> |RawBytes(a)| >= 5
  {
    hide Bytes4;
  }

  lemma PatchNothing(a: Asm, pos: nat, labelPos: map<Label, nat>)
    requires a.Ins? || a.Mark?
    ensures FinalBytes(a, pos, labelPos) == RawBytes(a)
  {
  }

  /** One jump: its last four bytes are its displacement. */
  lemma PatchJump(front: seq<Byte>, a: Asm, back: seq<Byte>, labelPos: map<Label, nat>)
    requires (a.JccTo? || a.JmpTo?) && a.target in labelPos
    ensures |RawBytes(a)| >= 5
    ensures var field := |front| + |RawBytes(a)| - 4;
      PatchAt(front + RawBytes(a) + back, field, labelPos[a.target] - (field + 4))
      == front + FinalBytes(a, |front|, labelPos) + back
  {
    hide Bytes4;
    var op: seq<Byte> := if a.JccTo? then [0x0F, 0x80 + CondCode(a.c)] else [0xE9];
    var disp := labelPos[a.target] - (|front| + |RawBytes(a)|);
    assert RawBytes(a) == op + Bytes4(0) && FinalBytes(a, |front|, labelPos) == op + Bytes4(disp);
    PatchTail(front, op, Bytes4(0), back, disp);
  }

  lemma PatchTail(front: seq<Byte>, op: seq<Byte>, old_: seq<Byte>, back: seq<Byte>, disp: int)
    requires |old_| == 4
    ensures PatchAt(front + (op + old_) + back, |front| + |op|, disp) == front + (op + Bytes4(disp)) + back
  {
    hide Bytes4;
    var code := front + (op + old_) + back;
    assert code[..|front| + |op|] == front + op && code[|front| + |op| + 4..] == back;
  }

  // --- labels ---

  predicate Marked(list: seq<Asm>, l: Label) {
    exists k :: 0 <= k < |list| && list[k] == Mark(l)
  }

  lemma MarkedRest(list: seq<Asm>, l: Label)
    requires list != [] && Marked(list[1..], l)
    ensures Marked(list, l)
  {
    var k :| 0 <= k < |list[1..]| && list[1..][k] == Mark(l);
    assert list[k + 1] == Mark(l);
  }

  lemma {:induction false} LabelKept(list: seq<Asm>, pos: nat, acc: map<Label, nat>, l: Label)
    requires !Marked(list, l) && l in acc
    ensures l in LabelsOf(list, pos, acc) && LabelsOf(list, pos, acc)[l] == acc[l]
    decreases |list|
  {
    if list != [] {
      assert list[0] != Mark(l);
      if Marked(list[1..], l) {
        MarkedRest(list, l);
      }
      LabelKept(list[1..], pos + |RawBytes(list[0])|, if list[0].Mark? then acc[list[0].l := pos] else acc, l);
    }
  }

  lemma MarkSize(l: Label)
    ensures RawBytes(Mark(l)) == []
  {
  }

  /** A label that is not placed again later has the position of its mark. */
  lemma {:induction false} LabelAt(a: seq<Asm>, l: Label, b: seq<Asm>, pos: nat, acc: map<Label, nat>)
    requires !Marked(b, l)
    ensures var m := LabelsOf(a + [Mark(l)] + b, pos, acc); l in m && m[l] == pos + Size(a)
    decreases |a|
  {
    hide RawBytes;
    var list := a + [Mark(l)] + b;
    if a == [] {
      assert list[0] == Mark(l) && list[1..] == b;
      MarkSize(l);
      LabelKept(b, pos, acc[l := pos], l);
    } else {
      assert list[0] == a[0] && list[1..] == a[1..] + [Mark(l)] + b;
      LabelAt(a[1..], l, b, pos + |RawBytes(a[0])|, if a[0].Mark? then acc[a[0].l := pos] else acc);
    }
  }

  lemma {:induction false} SizeAppend(a: seq<Asm>, b: seq<Asm>)
    ensures Size(a + b) == Size(a) + Size(b)
    decreases |a|
  {
    if a == [] {
      assert a + b == b;
    } else {
      assert (a + b)[0] == a[0] && (a + b)[1..] == a[1..] + b;
      SizeAppend(a[1..], b);
    }
  }
}
