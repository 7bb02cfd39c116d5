/** The bytes of the instructions: what the emitter writes, and what a decoder
    that follows the Intel manual reads (volume 2A, sections 2.1.5 and 2.2.1). */
module X86Encoding {
  import opened Words
  import opened Bytes
  import opened X86

  function SignExtend(v: nat, half: nat): int {
    if v < half then v else v - 2 * half
  }

  function ReadI32(s: seq<Byte>): int {
    SignExtend(FromBytes(s), TWO31)
  }

  predicate Int32(v: int) {
    -TWO31 <= v < TWO31
  }

  lemma I32Back(v: int)
    requires Int32(v)
    ensures ReadI32(Bytes4(v)) == v
  {
    PowValues();
    BytesBack(4, v % TWO32);
  }

  lemma I64Back(v: Int64)
    ensures FromBytes(LittleEndian(8, Unsigned(v))) == Unsigned(v)
    ensures Signed(Unsigned(v)) == v
  {
    PowValues();
    BytesBack(8, Unsigned(v));
  }

  // --- memory operands ---

  /** An operand the source can write: a power-of-two scale, no index in `rsp`,
      a 32-bit displacement. Without an index the scale is 1. */
  predicate MemOk(m: Mem) {
    && Int32(m.disp)
    && (m.scale == 1 || m.scale == 2 || m.scale == 4 || m.scale == 8)
    && (m.index.None? ==> m.scale == 1)
    && m.index != Some(RSP)
  }

  datatype EncMem = EncMem(mod: nat, rm: nat, sib: seq<Byte>, disp: seq<Byte>)

  function ScaleBits(scale: nat): nat {
    if scale == 1 then 0 else if scale == 2 then 1 else if scale == 4 then 2 else 3
  }

  /** `enc_mem`: `rsp` and `r12` need a SIB byte, `rbp` and `r13` a displacement. */
  function EncodeMem(m: Mem): (e: EncMem)
    ensures e.mod < 3 && e.rm < 8
  {
    var base3 := m.base % 8;
    var needSib := m.index.Some? || base3 == 4;
    var mod := if m.disp == 0 && base3 != 5 then 0 else if -128 <= m.disp <= 127 then 1 else 2;
    var disp: seq<Byte> := if mod == 0 then [] else if mod == 1 then [m.disp % 256] else Bytes4(m.disp);
    var idx := if m.index.Some? then m.index.value % 8 else 4;
    if needSib then EncMem(mod, 4, [ScaleBits(m.scale) * 64 + idx * 8 + base3], disp)
    else EncMem(mod, base3, [], disp)
  }

  function Bit(b: bool): (n: nat)
    ensures n < 2
  {
    if b then 1 else 0
  }

  /** The REX prefix, left out when it says nothing. */
  function Rex(w: bool, r: bool, x: bool, b: bool): seq<Byte> {
    var rex := 0x40 + Bit(w) * 8 + Bit(r) * 4 + Bit(x) * 2 + Bit(b);
    if rex == 0x40 then [] else [rex]
  }

  function MemBytes(reg: R64, m: Mem): seq<Byte> {
    var e := EncodeMem(m);
    [e.mod * 64 + (reg % 8) * 8 + e.rm] + e.sib + e.disp
  }

  /** `emit_modrm_mem` */
  function ModRmMem(op: Byte, w: bool, reg: R64, m: Mem): seq<Byte> {
    Rex(w, reg >= 8, m.index.Some? && m.index.value >= 8, m.base >= 8) + [op] + MemBytes(reg, m)
  }

  /** `emit_modrm_reg` */
  function ModRmReg(op: Byte, w: bool, reg: R64, rm: R64): seq<Byte> {
    Rex(w, reg >= 8, false, rm >= 8) + [op, 0xC0 + (reg % 8) * 8 + rm % 8]
  }

  // --- instructions ---

  function CondCode(c: Cond): (n: nat)
    ensures n < 16
  {
    match c
    case Below => 2
    case AboveEqual => 3
    case Equal => 4
    case NotEqual => 5
    case BelowEqual => 6
    case Above => 7
    case Less => 12
    case GreaterEqual => 13
    case LessEqual => 14
    case Greater => 15
  }

  function AluCode(op: AluOp): Byte {
    match op
    case AddOp => 0x01
    case OrOp => 0x09
    case AndOp => 0x21
    case SubOp => 0x29
    case XorOp => 0x31
    case CmpOp => 0x39
    case TestOp => 0x85
  }

  function Encode(i: Instr): (s: seq<Byte>)
    ensures |s| > 0
  {
    match i
    case MovImm(r, imm) => [0x48 + Bit(r >= 8), 0xB8 + r % 8] + LittleEndian(8, Unsigned(imm))
    case Load(r, m) => ModRmMem(0x8B, true, r, m)
    case Store(m, r) => ModRmMem(0x89, true, r, m)
    case Lea(r, m) => ModRmMem(0x8D, true, r, m)
    case MovReg(d, s) => ModRmReg(0x89, true, s, d)
    case Push(r) => (if r >= 8 then [0x41] else []) + [0x50 + r % 8]
    case Pop(r) => (if r >= 8 then [0x41] else []) + [0x58 + r % 8]
    case SubRsp(n) => [0x48, 0x81, 0xEC] + Bytes4(n)
    case Alu(op, d, s) => ModRmReg(AluCode(op), true, s, d)
    case Imul(d, s) => [0x48 + Bit(d >= 8) + Bit(s >= 8) * 4, 0x0F, 0xAF, 0xC0 + (d % 8) * 8 + s % 8]
    case Cqo => [0x48, 0x99]
    case Idiv(r) => ModRmReg(0xF7, true, 7, r)
    case Udiv(r) => ModRmReg(0xF7, true, 6, r)
    case Setcc(c, r) => (if r >= 8 then [0x41] else []) + [0x0F, 0x90 + CondCode(c), 0xC0 + r % 8]
    case Movzx(d, s) => [0x48 + Bit(d >= 8) * 4 + Bit(s >= 8), 0x0F, 0xB6, 0xC0 + (s % 8) * 8 + d % 8]
    case Jcc(c, rel) => [0x0F, 0x80 + CondCode(c)] + Bytes4(rel)
    case Jmp(rel) => [0xE9] + Bytes4(rel)
    case Leave => [0xC9]
    case Ret => [0xC3]
  }

  // --- decoding ---

  /** The base and index of a memory operand; `x` and `b` are the REX bits, `s`
      follows the ModRM byte. Absolute and rip-relative forms are not read. */
  function DecodeMem(mod: nat, rm: nat, x: nat, b: nat, s: seq<Byte>): Option<(Mem, nat)>
    requires mod < 3 && rm < 8 && x < 2 && b < 2
  {
    if rm == 4 then
      if |s| == 0 then None
      else
        var base3, idx := s[0] % 8, (s[0] / 8) % 8 + 8 * x;
        if base3 == 5 && mod == 0 then None
        else
          match DecodeDisp(mod, s[1..])
          case None => None
          case Some(d) =>
            var scale := if idx == 4 then 1 else ScaleOf(s[0] / 64);
            Some((Mem(base3 + 8 * b, if idx == 4 then None else Some(idx), scale, d.0), d.1 + 1))
    else if rm == 5 && mod == 0 then None
    else
      match DecodeDisp(mod, s)
      case None => None
      case Some(d) => Some((Mem(rm + 8 * b, None, 1, d.0), d.1))
  }

  function ScaleOf(bits: nat): nat {
    if bits == 0 then 1 else if bits == 1 then 2 else if bits == 2 then 4 else 8
  }

  function DecodeDisp(mod: nat, s: seq<Byte>): Option<(int, nat)> {
    if mod == 0 then Some((0, 0))
    else if mod == 1 then (if |s| < 1 then None else Some((SignExtend(s[0], 128), 1)))
    else if |s| < 4 then None
    else Some((ReadI32(s[..4]), 4))
  }

  /** The prefix bits. */
  datatype Prefix = Prefix(w: bool, r: nat, x: nat, b: nat)

  function PrefixOf(rex: Byte): (p: Prefix)
    ensures p.r < 2 && p.x < 2 && p.b < 2
  {
    Prefix(rex / 8 % 2 == 1, rex / 4 % 2, rex / 2 % 2, rex % 2)
  }

  function AluOf(op: Byte): Option<AluOp> {
    if op == 0x01 then Some(AddOp) else if op == 0x09 then Some(OrOp) else if op == 0x21 then Some(AndOp)
    else if op == 0x29 then Some(SubOp) else if op == 0x31 then Some(XorOp) else if op == 0x39 then Some(CmpOp)
    else if op == 0x85 then Some(TestOp) else None
  }

  function CondOf(n: nat): Option<Cond> {
    if n == 2 then Some(Below) else if n == 3 then Some(AboveEqual) else if n == 4 then Some(Equal)
    else if n == 5 then Some(NotEqual) else if n == 6 then Some(BelowEqual) else if n == 7 then Some(Above)
    else if n == 12 then Some(Less) else if n == 13 then Some(GreaterEqual) else if n == 14 then Some(LessEqual)
    else if n == 15 then Some(Greater) else None
  }

  /** The instruction at the front of `s` and its length. */
  function Decode(s: seq<Byte>): Option<(Instr, nat)> {
    if |s| == 0 then None
    else if 0x40 <= s[0] < 0x50 then Longer(DecodeOp(PrefixOf(s[0]), s[1..]))
    else DecodeOp(PrefixOf(0), s)
  }

  function Longer(r: Option<(Instr, nat)>): Option<(Instr, nat)> {
    match r
    case None => None
    case Some(p) => Some((p.0, p.1 + 1))
  }

  function DecodeOp(p: Prefix, s: seq<Byte>): Option<(Instr, nat)>
    requires p.r < 2 && p.x < 2 && p.b < 2
  {
    if |s| == 0 then None
    else if s[0] == 0x0F then DecodeTwo(p, s[1..])
    else if p.w && (s[0] == 0x8B || s[0] == 0x89 || s[0] == 0x8D || s[0] == 0xF7 || AluOf(s[0]).Some?) then DecodeRm(p, s[0], s[1..])
    else if 0x50 <= s[0] < 0x58 then Some((Push(s[0] - 0x50 + 8 * p.b), 1))
    else if 0x58 <= s[0] < 0x60 then Some((Pop(s[0] - 0x58 + 8 * p.b), 1))
    else if 0xB8 <= s[0] < 0xC0 && p.w && |s| >= 9 then
      MovImmOf(s[0] - 0xB8 + 8 * p.b, FromBytes(s[1..9]))
    else if s[0] == 0x81 && p.w && p.b == 0 && |s| >= 6 && s[1] == 0xEC then Some((SubRsp(ReadI32(s[2..6])), 6))
    else if s[0] == 0x99 && p.w then Some((Cqo, 1))
    else if s[0] == 0xE9 && |s| >= 5 then Some((Jmp(ReadI32(s[1..5])), 5))
    else if s[0] == 0xC9 then Some((Leave, 1))
    else if s[0] == 0xC3 then Some((Ret, 1))
    else None
  }

  function MovImmOf(r: R64, v: nat): Option<(Instr, nat)> {
    if v < TWO64 then Some((MovImm(r, Signed(v)), 9)) else None
  }

  /** One-byte opcodes with a ModRM byte. */
  function DecodeRm(p: Prefix, op: Byte, s: seq<Byte>): Option<(Instr, nat)>
    requires p.r < 2 && p.x < 2 && p.b < 2
  {
    if |s| == 0 then None
    else
      var mod, reg3, rm := s[0] / 64, s[0] / 8 % 8, s[0] % 8;
      var reg: R64 := reg3 + 8 * p.r;
      if mod == 3 then
        var r: R64 := rm + 8 * p.b;
        if op == 0x89 then Some((MovReg(r, reg), 2))
        else if op == 0xF7 then
          (if reg3 == 7 then Some((Idiv(r), 2)) else if reg3 == 6 then Some((Udiv(r), 2)) else None)
        else if AluOf(op).Some? then Some((Alu(AluOf(op).value, r, reg), 2))
        else None
      else
        match DecodeMem(mod, rm, p.x, p.b, s[1..])
        case None => None
        case Some(m) =>
          if op == 0x8B then Some((Load(reg, m.0), m.1 + 2))
          else if op == 0x89 then Some((Store(m.0, reg), m.1 + 2))
          else if op == 0x8D then Some((Lea(reg, m.0), m.1 + 2))
          else None
  }

  /** Two-byte opcodes, after the `0F`. Without a prefix, byte registers 4 to 7
      are `ah` to `bh`, which are not read. */
  function DecodeTwo(p: Prefix, s: seq<Byte>): Option<(Instr, nat)>
    requires p.r < 2 && p.x < 2 && p.b < 2
  {
    if |s| == 0 then None
    else if 0x80 <= s[0] < 0x90 then
      (if |s| >= 5 && CondOf(s[0] - 0x80).Some? then Some((Jcc(CondOf(s[0] - 0x80).value, ReadI32(s[1..5])), 6)) else None)
    else if |s| < 2 || s[1] < 0xC0 then None
    else
      var reg: R64 := s[1] / 8 % 8 + 8 * p.r;
      var rm: R64 := s[1] % 8 + 8 * p.b;
      if 0x90 <= s[0] < 0xA0 then
        (if CondOf(s[0] - 0x90).Some? && (rm < 4 || rm >= 8) && s[1] < 0xC8
         then Some((Setcc(CondOf(s[0] - 0x90).value, rm), 3)) else None)
      else if s[0] == 0xAF && p.w then Some((Imul(reg, rm), 3))
      else if s[0] == 0xB6 && p.w then Some((Movzx(reg, rm), 3))
      else None
  }

  // --- round trip ---

  /** What the emitter encodes as it should. `imul` mixes up the two extension
      bits, `movzx` the two register fields, and `setcc` has no prefix for the
      low bytes of registers 4 to 7. */
  predicate Encodable(i: Instr) {
    match i
    case Load(_, m) => MemOk(m)
    case Store(m, _) => MemOk(m)
    case Lea(_, m) => MemOk(m)
    case SubRsp(n) => Int32(n)
    case Imul(d, s) => d >= 8 <==> s >= 8
    case Setcc(_, r) => r < 4 || r >= 8
    case Movzx(d, s) => d % 8 == s % 8
    case Jcc(_, rel) => Int32(rel)
    case Jmp(rel) => Int32(rel)
    case _ => true
  }

  lemma RegSplit(r: R64)
    ensures r % 8 + 8 * Bit(r >= 8) == r
  {
  }

  /** Every memory operand is read back as it was written. */
  lemma MemBack(m: Mem, rest: seq<Byte>)
    requires MemOk(m)
    ensures var e := EncodeMem(m);
      DecodeMem(e.mod, e.rm, Bit(m.index.Some? && m.index.value >= 8), Bit(m.base >= 8), e.sib + e.disp + rest)
      == Some((m, |e.sib| + |e.disp|))
  {
    hide DecodeDisp, Bytes4, ReadI32;
    var e := EncodeMem(m);
    DispBack(m, rest);
    RegSplit(m.base);
    if m.index.Some? {
      RegSplit(m.index.value);
    }
    var s := e.sib + e.disp + rest;
    if |e.sib| > 0 {
      var idx := if m.index.Some? then m.index.value % 8 else 4;
      SibBack(ScaleBits(m.scale), idx, m.base % 8);
      assert s[0] == ScaleBits(m.scale) * 64 + idx * 8 + m.base % 8 && s[1..] == e.disp + rest;
      assert ScaleOf(ScaleBits(m.scale)) == m.scale;
    } else {
      assert s == e.disp + rest;
    }
  }

  lemma DispBack(m: Mem, rest: seq<Byte>)
    requires MemOk(m)
    ensures var e := EncodeMem(m); DecodeDisp(e.mod, e.disp + rest) == Some((m.disp, |e.disp|))
  {
    var e := EncodeMem(m);
    if e.mod == 2 {
      assert (e.disp + rest)[..4] == Bytes4(m.disp);
      I32Back(m.disp);
    }
  }

  lemma SibBack(scale: nat, idx: nat, base: nat)
    requires scale < 4 && idx < 8 && base < 8
    ensures var b := scale * 64 + idx * 8 + base; b < 256 && b / 64 == scale && b / 8 % 8 == idx && b % 8 == base
  {
  }

  lemma RexBack(w: bool, r: bool, x: bool, b: bool)
    requires Rex(w, r, x, b) != []
    ensures |Rex(w, r, x, b)| == 1 && 0x40 <= Rex(w, r, x, b)[0] < 0x50
    ensures PrefixOf(Rex(w, r, x, b)[0]) == Prefix(w, Bit(r), Bit(x), Bit(b))
  {
  }

  /** An instruction that starts with a REX prefix. */
  lemma AfterRex(w: bool, r: bool, x: bool, b: bool, s: seq<Byte>)
    requires w
    ensures |Rex(w, r, x, b)| == 1
    ensures Decode(Rex(w, r, x, b) + s) == Longer(DecodeOp(Prefix(w, Bit(r), Bit(x), Bit(b)), s))
  {
    RexBack(w, r, x, b);
    var all := Rex(w, r, x, b) + s;
    assert all[1..] == s;
  }

  lemma ModRmBack(reg: R64, rm: R64)
    ensures var b := 0xC0 + (reg % 8) * 8 + rm % 8;
      0xC0 <= b < 256 && b / 64 == 3 && b / 8 % 8 == reg % 8 && b % 8 == rm % 8
  {
  }

  /** The instruction with a memory operand that an opcode stands for. */
  function MemInstr(op: Byte, reg: R64, m: Mem): Instr {
    if op == 0x8B then Load(reg, m) else if op == 0x89 then Store(m, reg) else Lea(reg, m)
  }

  lemma MemRmBack(op: Byte, reg: R64, m: Mem, rest: seq<Byte>)
    requires MemOk(m) && (op == 0x8B || op == 0x89 || op == 0x8D)
    ensures DecodeRm(Prefix(true, Bit(reg >= 8), Bit(m.index.Some? && m.index.value >= 8), Bit(m.base >= 8)), op,
                     MemBytes(reg, m) + rest)
         == Some((MemInstr(op, reg, m), |MemBytes(reg, m)| + 1))
  {
    hide DecodeMem, EncodeMem, MemOk;
    var e := EncodeMem(m);
    var tail := MemBytes(reg, m) + rest;
    SibBack(e.mod, reg % 8, e.rm);
    RegSplit(reg);
    MemBack(m, rest);
    assert tail[1..] == e.sib + e.disp + rest;
  }

  lemma MemInstrBack(op: Byte, reg: R64, m: Mem, rest: seq<Byte>)
    requires MemOk(m) && (op == 0x8B || op == 0x89 || op == 0x8D)
    ensures Decode(ModRmMem(op, true, reg, m) + rest) ==
              Some((MemInstr(op, reg, m), |ModRmMem(op, true, reg, m)|))
  {
    hide Decode, DecodeRm, MemBytes, Rex, MemOk;
    var x := m.index.Some? && m.index.value >= 8;
    var tail := MemBytes(reg, m) + rest;
    MemRmBack(op, reg, m, rest);
    assert ([op] + tail)[1..] == tail;
    AfterRex(true, reg >= 8, x, m.base >= 8, [op] + tail);
    assert ModRmMem(op, true, reg, m) + rest == Rex(true, reg >= 8, x, m.base >= 8) + ([op] + tail);
  }

  lemma RegInstrBack(op: Byte, reg: R64, rm: R64, i: Instr, rest: seq<Byte>)
    requires op == 0x89 || op == 0xF7 || AluOf(op).Some?
    requires DecodeRm(Prefix(true, Bit(reg >= 8), 0, Bit(rm >= 8)), op, [0xC0 + (reg % 8) * 8 + rm % 8] + rest) == Some((i, 2))
    ensures Decode(ModRmReg(op, true, reg, rm) + rest) == Some((i, |ModRmReg(op, true, reg, rm)|))
  {
    hide DecodeRm, Rex, PrefixOf;
    var b: Byte := 0xC0 + (reg % 8) * 8 + rm % 8;
    AfterRex(true, reg >= 8, false, rm >= 8, [op, b] + rest);
    assert ([op, b] + rest)[1..] == [b] + rest;
    assert ModRmReg(op, true, reg, rm) + rest == Rex(true, reg >= 8, false, rm >= 8) + ([op, b] + rest);
  }

  lemma CondBack(c: Cond)
    ensures CondOf(CondCode(c)) == Some(c)
  {
  }

  lemma AluBack(op: AluOp)
    ensures AluOf(AluCode(op)) == Some(op) && AluCode(op) != 0x89 && AluCode(op) != 0xF7 && AluCode(op) != 0x8B
  {
  }

  /** Reading back one instruction. */
  lemma InstrBack(i: Instr, rest: seq<Byte>)
    requires Encodable(i)
    ensures Decode(Encode(i) + rest) == Some((i, |Encode(i)|))
  {
    hide Decode, DecodeRm, DecodeMem, EncodeMem, ModRmMem, ModRmReg, Rex, LittleEndian, FromBytes, Bytes4, MemOk;
    match i
    case MovImm(_, _) => MovImmBack(i, rest);
    case Load(r, m) => MemInstrBack(0x8B, r, m, rest);
    case Store(m, r) => MemInstrBack(0x89, r, m, rest);
    case Lea(r, m) => MemInstrBack(0x8D, r, m, rest);
    case MovReg(_, _) => RegBack(i, rest);
    case Push(_) => StackBack(i, rest);
    case Pop(_) => StackBack(i, rest);
    case SubRsp(_) => ShortBack(i, rest);
    case Alu(_, _, _) => RegBack(i, rest);
    case Imul(_, _) => TwoBack(i, rest);
    case Cqo => ShortBack(i, rest);
    case Idiv(_) => DivideBack(i, rest);
    case Udiv(_) => DivideBack(i, rest);
    case Setcc(_, _) => TwoBack(i, rest);
    case Movzx(_, _) => TwoBack(i, rest);
    case Jcc(_, _) => JumpBack(i, rest);
    case Jmp(_) => JumpBack(i, rest);
    case Leave => ShortBack(i, rest);
    case Ret => ShortBack(i, rest);
  }

  lemma MovImmBack(i: Instr, rest: seq<Byte>)
    requires i.MovImm?
    ensures Decode(Encode(i) + rest) == Some((i, |Encode(i)|))
  {
    hide LittleEndian, FromBytes;
    var s := Encode(i) + rest;
    I64Back(i.imm);
    var v := LittleEndian(8, Unsigned(i.imm));
    assert s[1..] == [0xB8 + i.r % 8] + (v + rest);
    assert s[1..][1..9] == v;
  }

  lemma StackBack(i: Instr, rest: seq<Byte>)
    requires i.Push? || i.Pop?
    ensures Decode(Encode(i) + rest) == Some((i, |Encode(i)|))
  {
    var s := Encode(i) + rest;
    if i.r >= 8 {
      assert s[1..][0] == Encode(i)[1];
    }
  }

  lemma ShortBack(i: Instr, rest: seq<Byte>)
    requires Encodable(i) && (i.SubRsp? || i.Cqo? || i.Leave? || i.Ret?)
    ensures Decode(Encode(i) + rest) == Some((i, |Encode(i)|))
  {
    hide Bytes4, ReadI32;
    var s := Encode(i) + rest;
    if i.SubRsp? {
      I32Back(i.bytes);
      assert s[1..] == [0x81, 0xEC] + (Bytes4(i.bytes) + rest);
      assert s[1..][2..6] == Bytes4(i.bytes);
    }
  }

  /** The processor extends the sign of the number of bytes: exactly those below
      2^31 are read back, the others as if 2^32 had been taken off. */
  lemma SubRspBack(n: nat, rest: seq<Byte>)
    requires n < TWO32
    ensures Decode(Encode(SubRsp(n)) + rest) == Some((SubRsp(if n < TWO31 then n else n - TWO32), 7))
    ensures Decode(Encode(SubRsp(n)) + rest) == Some((SubRsp(n), 7)) <==> n < TWO31
  {
    hide *;
    var m := if n < TWO31 then n else n - TWO32;
    SubRspBytes(n, m);
    SubRspFits(m);
    InstrBack(SubRsp(m), rest);
  }

  lemma SubRspFits(m: int)
    requires Int32(m)
    ensures Encodable(SubRsp(m))
  {
  }

  lemma SubRspBytes(n: nat, m: int)
    requires n < TWO32 && m == if n < TWO31 then n else n - TWO32
    ensures Int32(m) && Encode(SubRsp(n)) == Encode(SubRsp(m)) && |Encode(SubRsp(m))| == 7
  {
    hide LittleEndian;
  }

  /** 2^31 bytes are read back as minus 2^31. */
  lemma SubRspFails()
    ensures Decode(Encode(SubRsp(TWO31))) == Some((SubRsp(-TWO31), 7))
  {
    hide Decode, Encode;
    SubRspBack(TWO31, []);
    assert Encode(SubRsp(TWO31)) + [] == Encode(SubRsp(TWO31));
  }

  lemma JumpBack(i: Instr, rest: seq<Byte>)
    requires Encodable(i) && (i.Jcc? || i.Jmp?)
    ensures Decode(Encode(i) + rest) == Some((i, |Encode(i)|))
  {
    hide Bytes4, ReadI32;
    var s := Encode(i) + rest;
    I32Back(i.rel);
    if i.Jmp? {
      assert s[1..5] == Bytes4(i.rel);
    } else {
      CondBack(i.c);
      assert s[1..] == [0x80 + CondCode(i.c)] + (Bytes4(i.rel) + rest);
      assert s[1..][1..5] == Bytes4(i.rel);
    }
  }

  lemma RegBack(i: Instr, rest: seq<Byte>)
    requires i.MovReg? || i.Alu?
    ensures Decode(Encode(i) + rest) == Some((i, |Encode(i)|))
  {
    hide Decode, DecodeMem, ModRmReg;
    match i
    case MovReg(d, s) =>
      ModRmBack(s, d);
      RegSplit(s);
      RegSplit(d);
      RegInstrBack(0x89, s, d, i, rest);
    case Alu(op, d, s) =>
      AluBack(op);
      ModRmBack(s, d);
      RegSplit(s);
      RegSplit(d);
      RegInstrBack(AluCode(op), s, d, i, rest);
  }

  lemma DivideBack(i: Instr, rest: seq<Byte>)
    requires i.Idiv? || i.Udiv?
    ensures Decode(Encode(i) + rest) == Some((i, |Encode(i)|))
  {
    hide Decode, DecodeMem, ModRmReg;
    match i
    case Idiv(r) =>
      ModRmBack(7, r);
      RegSplit(r);
      RegInstrBack(0xF7, 7, r, i, rest);
    case Udiv(r) =>
      ModRmBack(6, r);
      RegSplit(r);
      RegInstrBack(0xF7, 6, r, i, rest);
  }

  /** Exactly the encodable forms of these three are read back. */
  lemma TwoBack(i: Instr, rest: seq<Byte>)
    requires i.Imul? || i.Setcc? || i.Movzx?
    ensures Decode(Encode(i) + rest) == Some((i, |Encode(i)|)) <==> Encodable(i)
  {
    hide Decode, Encode, Encodable;
    match i
    case Imul(_, _) => ImulBack(i, rest);
    case Setcc(_, _) => SetccBack(i, rest);
    case Movzx(_, _) => MovzxBack(i, rest);
  }

  /** `imul r8, rax` is read back with the two extension bits mixed up. */
  lemma ImulFails()
    ensures Decode(Encode(Imul(R8, RAX))) == Some((Imul(RAX, R8), 4))
  {
    var s := Encode(Imul(R8, RAX));
    assert s == [0x49, 0x0F, 0xAF, 0xC0] && s[1..] == [0x0F, 0xAF, 0xC0] && s[1..][1..] == [0xAF, 0xC0];
    assert PrefixOf(0x49) == Prefix(true, 0, 0, 1);
  }

  lemma PrefixBack(w: bool, r: bool, b: bool)
    ensures var rex := 0x40 + Bit(w) * 8 + Bit(r) * 4 + Bit(b);
      0x40 <= rex < 0x50 && PrefixOf(rex) == Prefix(w, Bit(r), 0, Bit(b))
    ensures PrefixOf(0) == Prefix(false, 0, 0, 0)
  {
  }

  lemma ImulBack(i: Instr, rest: seq<Byte>)
    requires i.Imul?
    ensures Decode(Encode(i) + rest) == Some((i, |Encode(i)|)) <==> Encodable(i)
  {
    hide PrefixOf;
    var s := Encode(i) + rest;
    PrefixBack(true, i.s >= 8, i.d >= 8);
    ModRmBack(i.d, i.s);
    var tail := [0x0F, 0xAF, 0xC0 + (i.d % 8) * 8 + i.s % 8] + rest;
    assert s[1..] == tail && tail[1..] == [0xAF, 0xC0 + (i.d % 8) * 8 + i.s % 8] + rest;
    assert Decode(s) == Some((Imul(i.d % 8 + 8 * Bit(i.s >= 8), i.s % 8 + 8 * Bit(i.d >= 8)), 4));
  }

  lemma MovzxBack(i: Instr, rest: seq<Byte>)
    requires i.Movzx?
    ensures Decode(Encode(i) + rest) == Some((i, |Encode(i)|)) <==> Encodable(i)
  {
    hide PrefixOf;
    var s := Encode(i) + rest;
    PrefixBack(true, i.d >= 8, i.s >= 8);
    ModRmBack(i.s, i.d);
    var tail := [0x0F, 0xB6, 0xC0 + (i.s % 8) * 8 + i.d % 8] + rest;
    assert s[1..] == tail && tail[1..] == [0xB6, 0xC0 + (i.s % 8) * 8 + i.d % 8] + rest;
    RegSplit(i.s);
    RegSplit(i.d);
    assert Decode(s) == Some((Movzx(i.s % 8 + 8 * Bit(i.d >= 8), i.d % 8 + 8 * Bit(i.s >= 8)), 4));
  }

  lemma SetccBack(i: Instr, rest: seq<Byte>)
    requires i.Setcc?
    ensures Decode(Encode(i) + rest) == Some((i, |Encode(i)|)) <==> Encodable(i)
  {
    hide PrefixOf;
    var s := Encode(i) + rest;
    CondBack(i.c);
    PrefixBack(false, false, i.r >= 8);
    ModRmBack(0, i.r);
    RegSplit(i.r);
    var two := [0x90 + CondCode(i.c), 0xC0 + i.r % 8] + rest;
    if i.r >= 8 {
      assert s == [0x41] + ([0x0F] + two) && s[1..] == [0x0F] + two;
    } else {
      assert s == [0x0F] + two;
    }
    assert ([0x0F] + two)[1..] == two;
  }

  // --- lists of instructions ---

  function EncodeAll(list: seq<Instr>): seq<Byte> {
    if list == [] then [] else Encode(list[0]) + EncodeAll(list[1..])
  }

  function DecodeAll(s: seq<Byte>): Option<seq<Instr>>
    decreases |s|
  {
    if s == [] then Some([])
    else
      match Decode(s)
      case None => None
      case Some(p) =>
        if p.1 == 0 || p.1 > |s| then None
        else
          match DecodeAll(s[p.1..])
          case None => None
          case Some(rest) => Some([p.0] + rest)
  }

  /** Decoding the bytes of any list of encodable instructions gives the list back. */
  lemma {:induction false} ListBack(list: seq<Instr>)
    requires forall k :: 0 <= k < |list| ==> Encodable(list[k])
    ensures DecodeAll(EncodeAll(list)) == Some(list)
  {
    hide Decode, Encode, Encodable;
    if list != [] {
      var rest := EncodeAll(list[1..]);
      InstrBack(list[0], rest);
      assert (Encode(list[0]) + rest)[|Encode(list[0])|..] == rest;
      ListBack(list[1..]);
      assert [list[0]] + list[1..] == list;
    }
  }
}
