/** The instruction selector: an object with the text, the label positions and
    the jumps that are still to be patched. */
module X86Isel {
  import opened Words
  import opened Ir
  import opened X86
  import opened Bytes
  import opened X86Encoding
  import opened X86Emitter
  import opened X86Select
  import opened X86Layout
  import R = X86Run

  lemma {:induction false} EncodeAppend(a: seq<Instr>, b: seq<Instr>)
    ensures EncodeAll(a + b) == EncodeAll(a) + EncodeAll(b)
  {
    hide Encode;
    if a == [] {
      assert a + b == b;
    } else {
      assert (a + b)[0] == a[0] && (a + b)[1..] == a[1..] + b;
      EncodeAppend(a[1..], b);
    }
  }

  /** Adding plain instructions is writing their bytes. */
  lemma {:induction false} AddPlain(t: Text, list: seq<Instr>)
    ensures AddAll(t, Plain(list)) == t.(code := t.code + EncodeAll(list))
    decreases |list|
  {
    hide Encode;
    if list == [] {
      assert t.code + [] == t.code;
    } else {
      assert Plain(list)[1..] == Plain(list[1..]);
      AddPlain(AddAsm(t, Ins(list[0])), list[1..]);
    }
  }

  lemma PlainAdded(t: Text, u: Text, done: seq<Instr>, list: seq<Instr>)
    requires t.code == EncodeAll(done) && u.code == EncodeAll(done + list)
    requires u.fixups == t.fixups && u.labelPos == t.labelPos
    ensures u == AddAll(t, Plain(list))
  {
    EncodeAppend(done, list);
    AddPlain(t, list);
  }

  lemma AddOne(t: Text, a: Asm)
    ensures AddAll(t, [a]) == AddAsm(t, a)
  {
    assert [a][1..] == [];
  }

  /** One patched byte after another. */
  lemma PatchByte(was: seq<Byte>, field: nat, bytes: seq<Byte>, i: nat, code: seq<Byte>)
    requires |bytes| == 4 && i < 4 && field + 4 <= |was|
    requires code == was[..field] + bytes[..i] + was[field + i..]
    ensures field + i < |code| && code[field + i := bytes[i]] == was[..field] + bytes[..i + 1] + was[field + i + 1..]
  {
    assert bytes[..i + 1] == bytes[..i] + [bytes[i]];
  }

  class ISel {
    const text: Emitter
    var fixups: seq<Fixup>
    var labelPos: map<Label, nat>

    ghost predicate Valid()
      reads this, text
    {
      text.Valid()
    }

    ghost function View(): Text
      reads this, text
    {
      Text(text.code, fixups, labelPos)
    }

    constructor ()
      ensures Valid() && fresh(text) && View() == Text([], [], map[])
    {
      text := new Emitter();
      fixups, labelPos := [], map[];
    }

    method EmitLoad(r: Reg, fn: Fn)
      requires text.Valid()
      modifies text
      ensures text.Valid() && text.emitted == old(text.emitted) + [Load(RAX, TempSlot(fn, r)), Push(RAX)]
    {
      hide Emitter.Valid;
      text.MovR64Mem(RAX, TempSlot(fn, r));
      text.PushR64(RAX);
    }

    /** 1 for a non-zero register, else 0. */
    method EmitTruth(r: R64)
      requires text.Valid()
      modifies text
      ensures text.Valid() && text.emitted == old(text.emitted) + Truth(r)
    {
      hide Emitter.Valid;
      text.TestR64R64(r, r);
      text.EmitSetcc(NotEqual, r);
      text.MovzxR64R8(r, r);
    }

    method EmitCompare(c: Cond)
      requires text.Valid()
      modifies text
      ensures text.Valid() && text.emitted == old(text.emitted) + CompareWith(c)
    {
      hide Emitter.Valid;
      text.CmpR64R64(RAX, RBX);
      text.EmitSetcc(c, RAX);
      text.MovzxR64R8(RAX, RAX);
    }

    method EmitDivide(signed: bool)
      requires text.Valid()
      modifies text
      ensures text.Valid()
      ensures text.emitted == old(text.emitted) + (if signed then [Cqo, Idiv(RBX)] else [Alu(XorOp, RDX, RDX), Udiv(RBX)])
    {
      hide Emitter.Valid;
      if signed {
        text.EmitCqo();
        text.IdivR64(RBX);
      } else {
        text.XorR64R64(RDX, RDX);
        text.DivR64(RBX);
      }
    }

    method EmitLogic(conj: bool)
      requires text.Valid()
      modifies text
      ensures text.Valid()
      ensures text.emitted == old(text.emitted) + (Truth(RAX) + Truth(RBX) + [Alu(if conj then AndOp else OrOp, RAX, RBX)])
    {
      hide Emitter.Valid, Truth;
      EmitTruth(RAX);
      EmitTruth(RBX);
      if conj {
        text.AndR64R64(RAX, RBX);
      } else {
        text.OrR64R64(RAX, RBX);
      }
    }

    method EmitOperation(op: BinaryOp, k: TypeKind)
      requires text.Valid()
      modifies text
      ensures text.Valid() && text.emitted == old(text.emitted) + Operate(op, k)
    {
      hide Emitter.Valid, Truth, CompareWith;
      match op {
        case Add => text.AddR64R64(RAX, RBX);
        case Sub => text.SubR64R64(RAX, RBX);
        case Mul => text.ImulR64R64(RAX, RBX);
        case Div => EmitDivide(IsSignedIntKind(k));
        case BitAnd => text.AndR64R64(RAX, RBX);
        case BitOr => text.OrR64R64(RAX, RBX);
        case LogicAnd => EmitLogic(true);
        case LogicOr => EmitLogic(false);
        case Eq => EmitCompare(Equal);
        case NotEq => EmitCompare(NotEqual);
        case Lt => EmitCompare(Less);
        case Lte => EmitCompare(LessEqual);
        case Gt => EmitCompare(Greater);
        case Gte => EmitCompare(GreaterEqual);
      }
    }

    method EmitBinop(inst: Inst, fn: Fn)
      requires text.Valid() && inst.Binary? && Selectable(inst)
      modifies text
      ensures text.Valid() && text.emitted == old(text.emitted) + StraightCode(fn, inst)
    {
      hide Operate, Emitter.Valid, TempSlot;
      EmitLoad(inst.lhs, fn);
      EmitLoad(inst.rhs, fn);
      text.PopR64(RBX);
      text.PopR64(RAX);
      EmitOperation(inst.op, inst.kind);
      text.MovMemR64(TempSlot(fn, inst.dst), RAX);
    }

    /** What neither jumps nor marks a label. */
    method EmitStraight(inst: Inst, fn: Fn)
      requires text.Valid() && Selectable(inst)
      requires !inst.Return? && !inst.Jump? && !inst.Branch? && !inst.LabelMark?
      modifies text
      ensures text.Valid() && text.emitted == old(text.emitted) + StraightCode(fn, inst)
    {
      hide Emitter.Valid, TempSlot;
      if inst.LoadConst? {
        text.MovR64Imm(RAX, inst.imm);
        text.MovMemR64(TempSlot(fn, inst.dst), RAX);
      } else if inst.LoadLocal? {
        text.MovR64Mem(RAX, LocalSlot(inst.local));
        text.MovMemR64(TempSlot(fn, inst.dst), RAX);
      } else if inst.StoreLocal? {
        text.MovR64Mem(RAX, TempSlot(fn, inst.src));
        text.MovMemR64(LocalSlot(inst.local), RAX);
      } else if inst.AddrOf? {
        text.LeaR64Mem(RAX, LocalSlot(inst.local));
        text.MovMemR64(TempSlot(fn, inst.dst), RAX);
      } else if inst.Alloca? {
        text.LeaR64Mem(RAX, ObjectMem(fn, inst.offset));
        text.MovMemR64(TempSlot(fn, inst.dst), RAX);
      } else {
        EmitBinop(inst, fn);
      }
    }

    method EmitJump(l: Label)
      requires Valid()
      modifies this, text
      ensures Valid() && View() == AddAll(old(View()), [JmpTo(l)])
    {
      hide EncodeAll, AddAll;
      EncodeSnoc(text.emitted, Jmp(0));
      AddOne(View(), JmpTo(l));
      text.JmpRel32();
      fixups := fixups + [Fixup(|text.code| - 4, l)];
    }

    method EmitJcc(c: Cond, l: Label)
      requires Valid()
      modifies this, text
      ensures Valid() && View() == AddAll(old(View()), [JccTo(c, l)])
    {
      hide EncodeAll, AddAll;
      EncodeSnoc(text.emitted, Jcc(c, 0));
      AddOne(View(), JccTo(c, l));
      text.JccRel32(c);
      fixups := fixups + [Fixup(|text.code| - 4, l)];
    }

    method EmitReturn(r: Reg, fn: Fn)
      requires Valid()
      modifies text
      ensures Valid() && View() == AddAll(old(View()), Select(fn, Return(r)))
    {
      hide AddAll, TempSlot, EncodeAll;
      ghost var list := [Load(RAX, TempSlot(fn, r)), Instr.Leave, Ret];
      text.MovR64Mem(RAX, TempSlot(fn, r));
      text.EmitLeave();
      text.EmitRet();
      assert text.emitted == old(text.emitted) + list;
      PlainAdded(old(View()), View(), old(text.emitted), list);
      assert Plain(list) == Select(fn, Return(r));
    }

    method EmitBranch(r: Reg, a: Label, b: Label, fn: Fn)
      requires Valid()
      modifies this, text
      ensures Valid() && View() == AddAll(old(View()), Select(fn, Branch(r, a, b)))
    {
      hide AddAll, TempSlot, EncodeAll;
      ghost var list := [Load(RAX, TempSlot(fn, r)), Alu(TestOp, RAX, RAX)];
      text.MovR64Mem(RAX, TempSlot(fn, r));
      text.TestR64R64(RAX, RAX);
      assert text.emitted == old(text.emitted) + list;
      PlainAdded(old(View()), View(), old(text.emitted), list);
      EmitJcc(NotEqual, a);
      EmitJump(b);
      AddAppend(old(View()), Plain(list), [JccTo(NotEqual, a)]);
      AddAppend(old(View()), Plain(list) + [JccTo(NotEqual, a)], [JmpTo(b)]);
      assert Select(fn, Branch(r, a, b)) == Plain(list) + [JccTo(NotEqual, a)] + [JmpTo(b)];
    }

    method EmitInst(inst: Inst, fn: Fn)
      requires Valid() && Selectable(inst)
      modifies this, text
      ensures Valid() && View() == AddAll(old(View()), Select(fn, inst))
    {
      hide AddAll, Plain, StraightCode;
      if inst.Return? {
        EmitReturn(inst.value, fn);
      } else if inst.Jump? {
        EmitJump(inst.target);
      } else if inst.Branch? {
        EmitBranch(inst.cond, inst.thenLabel, inst.elseLabel, fn);
      } else if inst.LabelMark? {
        AddOne(View(), Mark(inst.id));
        labelPos := labelPos[inst.id := |text.code|];
      } else {
        EmitStraight(inst, fn);
        PlainAdded(old(View()), View(), old(text.emitted), StraightCode(fn, inst));
      }
    }

    method EmitArg(i: nat)
      requires text.Valid()
      modifies text
      ensures text.Valid() && text.emitted == old(text.emitted) + MoveArg(i)
    {
      hide Emitter.Valid;
      if i < 6 {
        text.MovMemR64(LocalSlot(i), ArgReg(i));
      } else {
        text.MovR64Mem(RAX, Mem(RBP, None, 1, 16 + (i - 6) * 8));
        text.MovMemR64(LocalSlot(i), RAX);
      }
    }

    method EmitPrologue(fn: Fn)
      requires Valid() && FrameSize(fn) < TWO32
      modifies text
      ensures Valid() && View() == AddAll(old(View()), Plain(Prologue(fn)))
    {
      hide AddAll, Plain, MoveArg, FrameSize, EncodeAll;
      ghost var open := [Push(RBP), MovReg(RBP, RSP)] + Reserve(fn);
      text.PushR64(RBP);
      text.MovR64R64(RBP, RSP);
      if FrameSize(fn) > 0 {
        text.SubRspImm32(FrameSize(fn));
      }
      for i := 0 to fn.argCount
        invariant text.Valid() && text.emitted == old(text.emitted) + open + MoveArgs(i)
        invariant fixups == old(fixups) && labelPos == old(labelPos)
      {
        EmitArg(i);
      }
      assert text.emitted == old(text.emitted) + Prologue(fn);
      PlainAdded(old(View()), View(), old(text.emitted), Prologue(fn));
    }

    method EmitFunc(fn: Fn)
      requires Valid() && AllSelectable(fn.body) && FrameSize(fn) < TWO32
      modifies this, text
      ensures Valid() && View() == AddAll(old(View()), FnAsm(fn))
    {
      hide AddAll, Plain, Prologue, Select, FrameSize;
      EmitPrologue(fn);
      ghost var t := View();
      AddNothing(t);
      for i := 0 to |fn.body|
        invariant Valid() && View() == AddAll(t, BodyAsm(fn, i))
      {
        AddAppend(t, BodyAsm(fn, i), Select(fn, fn.body[i]));
        EmitInst(fn.body[i], fn);
      }
      AddAppend(old(View()), Plain(Prologue(fn)), BodyAsm(fn, |fn.body|));
    }

    /** Four bytes of displacement for every jump; `false` if a label is missing. */
    method PatchFixups() returns (ok: bool)
      requires forall k :: 0 <= k < |fixups| ==> fixups[k].field + 4 <= |text.code|
      modifies text
      ensures ok <==> FixupsOk(old(text.code), fixups, labelPos)
      ensures ok ==> text.code == PatchAll(old(text.code), fixups, labelPos)
    {
      hide PatchAt, LittleEndian;
      ok := true;
      var k := 0;
      while k < |fixups|
        invariant k <= |fixups| && |text.code| == |old(text.code)|
        invariant forall j :: 0 <= j < k ==> fixups[j].key in labelPos
        invariant FixupsOk(text.code, fixups[k..], labelPos) ==>
                    PatchAll(old(text.code), fixups, labelPos) == PatchAll(text.code, fixups[k..], labelPos)
        invariant FixupsOk(text.code, fixups[k..], labelPos) <==> FixupsOk(old(text.code), fixups, labelPos)
      {
        var f := fixups[k];
        PatchNext(text.code, fixups, k, labelPos);
        if f.key !in labelPos {
          return false;
        }
        PatchField(f.field, labelPos[f.key] - (f.field + 4));
        k := k + 1;
      }
      assert fixups[k..] == [];
    }

    /** The bytes of one displacement. */
    method PatchField(field: nat, disp: int)
      requires field + 4 <= |text.code|
      modifies text
      ensures text.code == PatchAt(old(text.code), field, disp)
    {
      hide LittleEndian;
      ghost var was := text.code;
      ghost var bytes := Bytes4(disp);
      var v := disp % TWO32;
      for i := 0 to 4
        invariant text.code == was[..field] + bytes[..i] + was[field + i..]
      {
        PatchByte(was, field, bytes, i, text.code);
        ByteOf(4, v, i);
        text.code := text.code[field + i := v / Pow256(i) % 256];
      }
      assert bytes[..4] == bytes;
    }

    /** The text of a whole program, from the start; `false` if a jump has no
        label. */
    method Generate(p: Program) returns (ok: bool)
      requires ProgramSelectable(p) && forall g :: 0 <= g < |p.functions| ==> FrameSize(p.functions[g]) < TWO32
      modifies this, text
      ensures var t := AddAll(Text([], [], map[]), TextAsm(p, |p.functions|));
        && (ok <==> FixupsOk(t.code, t.fixups, t.labelPos))
        && (ok ==> text.code == PatchAll(t.code, t.fixups, t.labelPos))
    {
      hide AddAll, FnAsm, FrameSize, AllSelectable, PatchAll, FixupsOk;
      text.code, text.emitted := [], [];
      fixups, labelPos := [], map[];
      ghost var t := View();
      AddNothing(t);
      for g := 0 to |p.functions|
        invariant Valid() && View() == AddAll(t, TextAsm(p, g))
      {
        AddAppend(t, TextAsm(p, g), FnAsm(p.functions[g]));
        EmitFunc(p.functions[g]);
      }
      FieldsInside(TextAsm(p, |p.functions|));
      ok := PatchFixups();
    }
  }

  lemma AddNothing(t: Text)
    ensures AddAll(t, []) == t
  {
  }

  /** The next fixup. */
  lemma PatchNext(code: seq<Byte>, fixups: seq<Fixup>, k: nat, labelPos: map<Label, nat>)
    requires k < |fixups| && fixups[k].field + 4 <= |code|
    ensures FixupsOk(code, fixups[k..], labelPos) ==> fixups[k].key in labelPos
    ensures fixups[k].key in labelPos ==>
      var code1 := PatchAt(code, fixups[k].field, labelPos[fixups[k].key] - (fixups[k].field + 4));
      && (FixupsOk(code, fixups[k..], labelPos) <==> FixupsOk(code1, fixups[k + 1..], labelPos))
      && (FixupsOk(code, fixups[k..], labelPos) ==>
            PatchAll(code, fixups[k..], labelPos) == PatchAll(code1, fixups[k + 1..], labelPos))
  {
    hide PatchAt;
    var rest := fixups[k..];
    assert rest[0] == fixups[k] && rest[1..] == fixups[k + 1..];
    if fixups[k].key in labelPos {
      FixupsFront(code, rest, labelPos);
    }
  }

  lemma FixupsFront(code: seq<Byte>, rest: seq<Fixup>, labelPos: map<Label, nat>)
    requires rest != [] && FixupOk(|code|, rest[0], labelPos)
    ensures FixupsOk(code, rest, labelPos) <==> FixupsOk(code, rest[1..], labelPos)
  {
    hide FixupOk;
    if FixupsOk(code, rest[1..], labelPos) {
      forall k | 0 <= k < |rest|
        ensures FixupOk(|code|, rest[k], labelPos)
      {
        if k > 0 {
          assert rest[1..][k - 1] == rest[k];
        }
      }
    }
  }

  /** Every recorded displacement lies within the text. */
  lemma FieldsInside(list: seq<Asm>)
    ensures var t := AddAll(Text([], [], map[]), list);
      forall k :: 0 <= k < |t.fixups| ==> t.fixups[k].field + 4 <= |t.code|
  {
    hide AddAll, Raw, FixupsOf;
    AddAllIs(Text([], [], map[]), list);
    assert [] + Raw(list) == Raw(list) && [] + FixupsOf(list, 0) == FixupsOf(list, 0);
    FieldsBelow(list, 0);
  }

  lemma {:induction false} FieldsBelow(list: seq<Asm>, pos: nat)
    ensures forall k :: 0 <= k < |FixupsOf(list, pos)| ==> FixupsOf(list, pos)[k].field + 4 <= pos + Size(list)
    decreases |list|
  {
    hide RawBytes;
    if list != [] {
      JumpSize(list[0]);
      FieldsBelow(list[1..], pos + |RawBytes(list[0])|);
    }
  }

  lemma JumpSize(a: Asm)
    ensures a.JmpTo? || a.JccTo? ==> |RawBytes(a)| >= 4
  {
    hide LittleEndian;
  }

  /** What `Generate` leaves is the image of the program, wherever it is loaded. */
  lemma GeneratedImage(p: Program, code: seq<Byte>, org: nat)
    requires ProgramSelectable(p) && R.ImageOk(R.Image(org, code))
    requires var t := AddAll(Text([], [], map[]), TextAsm(p, |p.functions|));
      FixupsOk(t.code, t.fixups, t.labelPos) && code == PatchAll(t.code, t.fixups, t.labelPos)
    ensures ImageOf(p, [], R.Image(org, code))
  {
    hide AddAll, PatchAll, TextAsm, FixupsOk;
    var t := AddAll(Text([], [], map[]), TextAsm(p, |p.functions|));
    assert t.code + [] == t.code;
  }
}
