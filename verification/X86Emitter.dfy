/** The emitter object: bytes are appended to the code one by one. */
module X86Emitter {
  import opened Words
  import opened X86
  import opened Bytes
  import opened X86Encoding

  lemma {:induction false} EncodeSnoc(list: seq<Instr>, i: Instr)
    ensures EncodeAll(list + [i]) == EncodeAll(list) + Encode(i)
  {
    hide Encode;
    if list == [] {
      assert [i][1..] == [];
    } else {
      assert (list + [i])[0] == list[0] && (list + [i])[1..] == list[1..] + [i];
      EncodeSnoc(list[1..], i);
    }
  }

  /** The parts of a memory operand. */
  lemma MemShape(m: Mem)
    ensures var e := EncodeMem(m);
      && |e.sib| <= 1 && e.mod < 3 && e.rm < 8
      && e.disp == if e.mod == 0 then [] else if e.mod == 1 then [m.disp % 256] else LittleEndian(4, m.disp % TWO32)
  {
    hide LittleEndian;
  }

  class Emitter {
    var code: seq<Byte>
    /** The instructions emitted so far. */
    ghost var emitted: seq<Instr>

    ghost predicate Valid()
      reads this
    {
      code == EncodeAll(emitted)
    }

    constructor ()
      ensures Valid() && code == [] && emitted == []
    {
      code, emitted := [], [];
    }

    method U8(v: Byte)
      modifies `code
      ensures code == old(code) + [v]
    {
      code := code + [v];
    }

    method U32(v: nat)
      requires v < TWO32
      modifies `code
      ensures code == old(code) + LittleEndian(4, v)
    {
      ghost var all := LittleEndian(4, v);
      for i := 0 to 4
        invariant code == old(code) + all[..i]
      {
        ByteOf(4, v, i);
        U8(v / Pow256(i) % 256);
        assert all[..i + 1] == all[..i] + [all[i]];
      }
      assert all[..4] == all;
    }

    method U64(v: Word)
      modifies `code
      ensures code == old(code) + LittleEndian(8, v)
    {
      ghost var all := LittleEndian(8, v);
      for i := 0 to 8
        invariant code == old(code) + all[..i]
      {
        ByteOf(8, v, i);
        U8(v / Pow256(i) % 256);
        assert all[..i + 1] == all[..i] + [all[i]];
      }
      assert all[..8] == all;
    }

    /** The bytes of `i` have been written. */
    ghost method Wrote(i: Instr, before: seq<Byte>)
      requires before == EncodeAll(emitted) && code == before + Encode(i)
      modifies `emitted
      ensures emitted == old(emitted) + [i] && Valid()
    {
      EncodeSnoc(emitted, i);
      emitted := emitted + [i];
    }

    /** The prefix, unless it says nothing. */
    method EmitRex(w: bool, r: bool, x: bool, b: bool)
      modifies `code
      ensures code == old(code) + Rex(w, r, x, b)
    {
      var rex := 0x40 + Bit(w) * 8 + Bit(r) * 4 + Bit(x) * 2 + Bit(b);
      if rex != 0x40 {
        U8(rex);
      }
    }

    method EmitModRmMem(op: Byte, w: bool, reg: R64, m: Mem)
      modifies `code
      ensures code == old(code) + ModRmMem(op, w, reg, m)
    {
      hide Rex, MemBytes;
      EmitRex(w, reg >= 8, m.index.Some? && m.index.value >= 8, m.base >= 8);
      U8(op);
      EmitMemBytes(reg, m);
    }

    /** The ModRM byte, the SIB byte if one is needed, and the displacement. */
    method EmitMemBytes(reg: R64, m: Mem)
      modifies `code
      ensures code == old(code) + MemBytes(reg, m)
    {
      hide LittleEndian, EncodeMem;
      var e := EncodeMem(m);
      MemShape(m);
      U8(e.mod * 64 + (reg % 8) * 8 + e.rm);
      if |e.sib| > 0 {
        U8(e.sib[0]);
      }
      if e.mod == 1 {
        U8(m.disp % 256);
      } else if e.mod == 2 {
        U32(m.disp % TWO32);
      }
    }

    method EmitModRmReg(op: Byte, w: bool, reg: R64, rm: R64)
      modifies `code
      ensures code == old(code) + ModRmReg(op, w, reg, rm)
    {
      hide Rex;
      EmitRex(w, reg >= 8, false, rm >= 8);
      U8(op);
      U8(0xC0 + (reg % 8) * 8 + rm % 8);
    }

    method MovR64Imm(r: R64, imm: Int64)
      requires Valid()
      modifies this
      ensures Valid() && emitted == old(emitted) + [MovImm(r, imm)]
    {
      hide EncodeAll, ModRmReg, ModRmMem, LittleEndian;
      U8(0x48 + Bit(r >= 8));
      U8(0xB8 + r % 8);
      U64(Unsigned(imm));
      Wrote(MovImm(r, imm), old(code));
    }

    method MovR64R64(dst: R64, src: R64)
      requires Valid()
      modifies this
      ensures Valid() && emitted == old(emitted) + [MovReg(dst, src)]
    {
      hide EncodeAll, ModRmReg, ModRmMem, LittleEndian;
      EmitModRmReg(0x89, true, src, dst);
      Wrote(MovReg(dst, src), old(code));
    }

    method MovR64Mem(r: R64, m: Mem)
      requires Valid()
      modifies this
      ensures Valid() && emitted == old(emitted) + [Load(r, m)]
    {
      hide EncodeAll, ModRmReg, ModRmMem, LittleEndian;
      EmitModRmMem(0x8B, true, r, m);
      Wrote(Load(r, m), old(code));
    }

    method MovMemR64(m: Mem, r: R64)
      requires Valid()
      modifies this
      ensures Valid() && emitted == old(emitted) + [Store(m, r)]
    {
      hide EncodeAll, ModRmReg, ModRmMem, LittleEndian;
      EmitModRmMem(0x89, true, r, m);
      Wrote(Store(m, r), old(code));
    }

    method LeaR64Mem(r: R64, m: Mem)
      requires Valid()
      modifies this
      ensures Valid() && emitted == old(emitted) + [Lea(r, m)]
    {
      hide EncodeAll, ModRmReg, ModRmMem, LittleEndian;
      EmitModRmMem(0x8D, true, r, m);
      Wrote(Lea(r, m), old(code));
    }

    method MovzxR64R8(dst: R64, src: R64)
      requires Valid()
      modifies this
      ensures Valid() && emitted == old(emitted) + [Movzx(dst, src)]
    {
      hide EncodeAll, ModRmReg, ModRmMem, LittleEndian;
      U8(0x48 + Bit(dst >= 8) * 4 + Bit(src >= 8));
      U8(0x0F);
      U8(0xB6);
      U8(0xC0 + (src % 8) * 8 + dst % 8);
      Wrote(Movzx(dst, src), old(code));
    }

    method PushR64(r: R64)
      requires Valid()
      modifies this
      ensures Valid() && emitted == old(emitted) + [Push(r)]
    {
      hide EncodeAll, ModRmReg, ModRmMem, LittleEndian;
      if r >= 8 {
        U8(0x41);
      }
      U8(0x50 + r % 8);
      Wrote(Push(r), old(code));
    }

    method PopR64(r: R64)
      requires Valid()
      modifies this
      ensures Valid() && emitted == old(emitted) + [Pop(r)]
    {
      hide EncodeAll, ModRmReg, ModRmMem, LittleEndian;
      if r >= 8 {
        U8(0x41);
      }
      U8(0x58 + r % 8);
      Wrote(Pop(r), old(code));
    }

    method SubRspImm32(imm: nat)
      requires Valid()
      modifies this
      ensures Valid() && emitted == old(emitted) + [SubRsp(imm % TWO32)]
    {
      hide EncodeAll, ModRmReg, ModRmMem, LittleEndian;
      U8(0x48);
      U8(0x81);
      U8(0xEC);
      U32(imm % TWO32);
      Wrote(SubRsp(imm % TWO32), old(code));
    }

    method AddR64R64(dst: R64, src: R64)
      requires Valid()
      modifies this
      ensures Valid() && emitted == old(emitted) + [Alu(AddOp, dst, src)]
    {
      hide EncodeAll, ModRmReg, ModRmMem, LittleEndian;
      EmitModRmReg(0x01, true, src, dst);
      Wrote(Alu(AddOp, dst, src), old(code));
    }

    method SubR64R64(dst: R64, src: R64)
      requires Valid()
      modifies this
      ensures Valid() && emitted == old(emitted) + [Alu(SubOp, dst, src)]
    {
      hide EncodeAll, ModRmReg, ModRmMem, LittleEndian;
      EmitModRmReg(0x29, true, src, dst);
      Wrote(Alu(SubOp, dst, src), old(code));
    }

    method AndR64R64(dst: R64, src: R64)
      requires Valid()
      modifies this
      ensures Valid() && emitted == old(emitted) + [Alu(AndOp, dst, src)]
    {
      hide EncodeAll, ModRmReg, ModRmMem, LittleEndian;
      EmitModRmReg(0x21, true, src, dst);
      Wrote(Alu(AndOp, dst, src), old(code));
    }

    method OrR64R64(dst: R64, src: R64)
      requires Valid()
      modifies this
      ensures Valid() && emitted == old(emitted) + [Alu(OrOp, dst, src)]
    {
      hide EncodeAll, ModRmReg, ModRmMem, LittleEndian;
      EmitModRmReg(0x09, true, src, dst);
      Wrote(Alu(OrOp, dst, src), old(code));
    }

    method XorR64R64(dst: R64, src: R64)
      requires Valid()
      modifies this
      ensures Valid() && emitted == old(emitted) + [Alu(XorOp, dst, src)]
    {
      hide EncodeAll, ModRmReg, ModRmMem, LittleEndian;
      EmitModRmReg(0x31, true, src, dst);
      Wrote(Alu(XorOp, dst, src), old(code));
    }

    method CmpR64R64(dst: R64, src: R64)
      requires Valid()
      modifies this
      ensures Valid() && emitted == old(emitted) + [Alu(CmpOp, dst, src)]
    {
      hide EncodeAll, ModRmReg, ModRmMem, LittleEndian;
      EmitModRmReg(0x39, true, src, dst);
      Wrote(Alu(CmpOp, dst, src), old(code));
    }

    method TestR64R64(dst: R64, src: R64)
      requires Valid()
      modifies this
      ensures Valid() && emitted == old(emitted) + [Alu(TestOp, dst, src)]
    {
      hide EncodeAll, ModRmReg, ModRmMem, LittleEndian;
      EmitModRmReg(0x85, true, src, dst);
      Wrote(Alu(TestOp, dst, src), old(code));
    }

    method ImulR64R64(dst: R64, src: R64)
      requires Valid()
      modifies this
      ensures Valid() && emitted == old(emitted) + [Imul(dst, src)]
    {
      hide EncodeAll, ModRmReg, ModRmMem, LittleEndian;
      U8(0x48 + Bit(dst >= 8) + Bit(src >= 8) * 4);
      U8(0x0F);
      U8(0xAF);
      U8(0xC0 + (dst % 8) * 8 + src % 8);
      Wrote(Imul(dst, src), old(code));
    }

    method EmitCqo()
      requires Valid()
      modifies this
      ensures Valid() && emitted == old(emitted) + [Cqo]
    {
      hide EncodeAll, ModRmReg, ModRmMem, LittleEndian;
      U8(0x48);
      U8(0x99);
      Wrote(Cqo, old(code));
    }

    method IdivR64(r: R64)
      requires Valid()
      modifies this
      ensures Valid() && emitted == old(emitted) + [Idiv(r)]
    {
      hide EncodeAll, ModRmReg, ModRmMem, LittleEndian;
      EmitModRmReg(0xF7, true, 7, r);
      Wrote(Idiv(r), old(code));
    }

    method DivR64(r: R64)
      requires Valid()
      modifies this
      ensures Valid() && emitted == old(emitted) + [Udiv(r)]
    {
      hide EncodeAll, ModRmReg, ModRmMem, LittleEndian;
      EmitModRmReg(0xF7, true, 6, r);
      Wrote(Udiv(r), old(code));
    }

    method EmitSetcc(c: Cond, r: R64)
      requires Valid()
      modifies this
      ensures Valid() && emitted == old(emitted) + [Setcc(c, r)]
    {
      hide EncodeAll, ModRmReg, ModRmMem, LittleEndian;
      if r >= 8 {
        U8(0x41);
      }
      U8(0x0F);
      U8(0x90 + CondCode(c));
      U8(0xC0 + r % 8);
      Wrote(Setcc(c, r), old(code));
    }

    method JccRel32(c: Cond)
      requires Valid()
      modifies this
      ensures Valid() && emitted == old(emitted) + [Jcc(c, 0)]
    {
      hide EncodeAll, ModRmReg, ModRmMem, LittleEndian;
      U8(0x0F);
      U8(0x80 + CondCode(c));
      U32(0);
      Wrote(Jcc(c, 0), old(code));
    }

    method JmpRel32()
      requires Valid()
      modifies this
      ensures Valid() && emitted == old(emitted) + [Jmp(0)]
    {
      hide EncodeAll, ModRmReg, ModRmMem, LittleEndian;
      U8(0xE9);
      U32(0);
      Wrote(Jmp(0), old(code));
    }

    method EmitLeave()
      requires Valid()
      modifies this
      ensures Valid() && emitted == old(emitted) + [Leave]
    {
      hide EncodeAll, ModRmReg, ModRmMem, LittleEndian;
      U8(0xC9);
      Wrote(Leave, old(code));
    }

    method EmitRet()
      requires Valid()
      modifies this
      ensures Valid() && emitted == old(emitted) + [Ret]
    {
      hide EncodeAll, ModRmReg, ModRmMem, LittleEndian;
      U8(0xC3);
      Wrote(Ret, old(code));
    }
  }
}
