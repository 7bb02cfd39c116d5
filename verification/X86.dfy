/** The x86-64 instructions that the back end emits for integer code, and what
    the processor does with them. */
module X86 {
  import opened Words

  type R64 = n: nat | n < 16

  const RAX: R64 := 0
  const RCX: R64 := 1
  const RDX: R64 := 2
  const RBX: R64 := 3
  const RSP: R64 := 4
  const RBP: R64 := 5
  const RSI: R64 := 6
  const RDI: R64 := 7
  const R8: R64 := 8
  const R9: R64 := 9

  /** `[base + index * scale + disp]` */
  datatype Mem = Mem(base: R64, index: Option<R64>, scale: nat, disp: int)

  datatype Cond = Below | AboveEqual | Equal | NotEqual | BelowEqual | Above | Less | GreaterEqual | LessEqual | Greater

  datatype AluOp = AddOp | OrOp | AndOp | SubOp | XorOp | CmpOp | TestOp

  datatype Instr =
    | MovImm(r: R64, imm: Int64)
    | Load(r: R64, m: Mem)
    | Store(m: Mem, r: R64)
    | Lea(r: R64, m: Mem)
    | MovReg(d: R64, s: R64)
    | Push(r: R64)
    | Pop(r: R64)
    | SubRsp(bytes: int)
    | Alu(op: AluOp, d: R64, s: R64)
    | Imul(d: R64, s: R64)
    | Cqo
    | Idiv(r: R64)
    | Udiv(r: R64)
    | Setcc(c: Cond, r: R64)
    | Movzx(d: R64, s: R64)
    | Jcc(c: Cond, rel: int)
    | Jmp(rel: int)
    | Leave
    | Ret

  datatype Flags = Flags(zf: bool, sf: bool, cf: bool, of: bool)

  type Regs = s: seq<Word> | |s| == 16 witness seq(16, _ => 0)

  /** Memory is a map of aligned 8-byte words; what is not in it cannot be
      accessed. Flags are `None` after instructions whose flags nobody reads. */
  datatype Machine = Machine(rip: Word, regs: Regs, flags: Option<Flags>, mem: map<nat, Word>)

  function Get(m: Machine, r: R64): Word {
    m.regs[r]
  }

  function Set(m: Machine, r: R64, v: Word): Machine {
    m.(regs := m.regs[r := v])
  }

  function Address(m: Machine, a: Mem): Word {
    Wrap(Get(m, a.base) + (if a.index.Some? then Get(m, a.index.value) * a.scale else 0) + a.disp)
  }

  function ReadMem(m: Machine, a: nat): Option<Word> {
    if a in m.mem then Some(m.mem[a]) else None
  }

  function WriteMem(m: Machine, a: nat, v: Word): Option<Machine> {
    if a in m.mem then Some(m.(mem := m.mem[a := v])) else None
  }

  function Compare(a: Word, b: Word): Flags {
    var d := Signed(a) - Signed(b);
    Flags(a == b, Wrap(a - b) >= TWO63, a < b, !(-TWO63 <= d < TWO63))
  }

  function Test(a: Word, b: Word): Flags {
    var r := And64(a, b);
    Flags(r == 0, r >= TWO63, false, false)
  }

  predicate Satisfied(c: Cond, f: Flags) {
    match c
    case Below => f.cf
    case AboveEqual => !f.cf
    case Equal => f.zf
    case NotEqual => !f.zf
    case BelowEqual => f.cf || f.zf
    case Above => !f.cf && !f.zf
    case Less => f.sf != f.of
    case GreaterEqual => f.sf == f.of
    case LessEqual => f.zf || f.sf != f.of
    case Greater => !f.zf && f.sf == f.of
  }

  /** Exclusive or of two `n`-bit numbers. */
  function XorBits(n: nat, a: int, b: int): (r: int)
    requires 0 <= a < Pow2(n) && 0 <= b < Pow2(n)
    ensures 0 <= r < Pow2(n)
  {
    if n == 0 then 0
    else 2 * XorBits(n - 1, a / 2, b / 2) + (if a % 2 != b % 2 then 1 else 0)
  }

  function Xor64(a: Word, b: Word): Word {
    Pow2Is64();
    XorBits(64, a, b)
  }

  lemma {:induction false} XorSelf(n: nat, a: int)
    requires 0 <= a < Pow2(n)
    ensures XorBits(n, a, a) == 0
  {
    if n > 0 {
      XorSelf(n - 1, a / 2);
    }
  }

  function AluResult(op: AluOp, a: Word, b: Word): Word {
    match op
    case AddOp => Wrap(a + b)
    case OrOp => Or64(a, b)
    case AndOp => And64(a, b)
    case SubOp => Wrap(a - b)
    case XorOp => Xor64(a, b)
    case CmpOp => a
    case TestOp => a
  }

  function AluFlags(op: AluOp, a: Word, b: Word): Option<Flags> {
    match op
    case CmpOp => Some(Compare(a, b))
    case TestOp => Some(Test(a, b))
    case _ => None
  }

  /** The signed number in `RDX:RAX`. */
  function Signed128(hi: Word, lo: Word): int {
    Signed(hi) * TWO64 + lo
  }

  /** `idiv`: `None` is a divide error. */
  function SignedDivide(hi: Word, lo: Word, d: Word): Option<(Word, Word)> {
    if d == 0 then None
    else
      var n, q := Signed128(hi, lo), TruncDiv(Signed128(hi, lo), Signed(d));
      if -TWO63 <= q < TWO63 then Some((Wrap(q), Wrap(n - q * Signed(d)))) else None
  }

  function UnsignedDivide(hi: Word, lo: Word, d: Word): Option<(Word, Word)> {
    if d == 0 then None
    else
      var n := hi * TWO64 + lo;
      if n / d < TWO64 then Some((Wrap(n / d), Wrap(n % d))) else None
  }

  function SetDivision(m: Machine, r: Option<(Word, Word)>): Option<Machine> {
    match r
    case None => None
    case Some(qr) => Some(Set(Set(m, RAX, qr.0), RDX, qr.1).(flags := None))
  }

  function PushWord(m: Machine, v: Word): Option<Machine> {
    var sp := Wrap(Get(m, RSP) - 8);
    WriteMem(Set(m, RSP, sp), sp, v)
  }

  function PopWord(m: Machine): Option<(Machine, Word)> {
    var sp := Get(m, RSP);
    match ReadMem(m, sp)
    case None => None
    case Some(v) => Some((Set(m, RSP, Wrap(sp + 8)), v))
  }

  /** The instruction has been fetched and `rip` points behind it. */
  function Execute(i: Instr, m: Machine): Option<Machine> {
    match i
    case MovImm(r, imm) => Some(Set(m, r, Unsigned(imm)))
    case Load(r, a) =>
      (match ReadMem(m, Address(m, a))
       case None => None
       case Some(v) => Some(Set(m, r, v)))
    case Store(a, r) => WriteMem(m, Address(m, a), Get(m, r))
    case Lea(r, a) => Some(Set(m, r, Address(m, a)))
    case MovReg(d, s) => Some(Set(m, d, Get(m, s)))
    case Push(r) => PushWord(m, Get(m, r))
    case Pop(r) =>
      (match PopWord(m)
       case None => None
       case Some(p) => Some(Set(p.0, r, p.1)))
    case SubRsp(n) => Some(Set(m, RSP, Wrap(Get(m, RSP) - n)).(flags := None))
    case Alu(op, d, s) =>
      var a, b := Get(m, d), Get(m, s);
      Some(Set(m, d, AluResult(op, a, b)).(flags := AluFlags(op, a, b)))
    case Imul(d, s) => Some(Set(m, d, Wrap(Get(m, d) * Get(m, s))).(flags := None))
    case Cqo => Some(Set(m, RDX, if Get(m, RAX) >= TWO63 then TWO64 - 1 else 0))
    case Idiv(r) => SetDivision(m, SignedDivide(Get(m, RDX), Get(m, RAX), Get(m, r)))
    case Udiv(r) => SetDivision(m, UnsignedDivide(Get(m, RDX), Get(m, RAX), Get(m, r)))
    case Setcc(c, r) =>
      (match m.flags
       case None => None
       case Some(f) => Some(Set(m, r, Get(m, r) - Get(m, r) % 256 + FromBool(Satisfied(c, f)))))
    case Movzx(d, s) => Some(Set(m, d, Get(m, s) % 256))
    case Jcc(c, rel) =>
      (match m.flags
       case None => None
       case Some(f) => Some(if Satisfied(c, f) then m.(rip := Wrap(m.rip + rel)) else m))
    case Jmp(rel) => Some(m.(rip := Wrap(m.rip + rel)))
    case Leave =>
      (match PopWord(Set(m, RSP, Get(m, RBP)))
       case None => None
       case Some(p) => Some(Set(p.0, RBP, p.1)))
    case Ret =>
      (match PopWord(m)
       case None => None
       case Some(p) => Some(p.0.(rip := p.1)))
  }

  // --- what the conditions mean ---

  /** After `cmp a, b` the signed conditions compare the signed values, although
      the difference may overflow. */
  lemma CompareOrder(a: Word, b: Word)
    ensures Satisfied(Less, Compare(a, b)) <==> Signed(a) < Signed(b)
    ensures Satisfied(LessEqual, Compare(a, b)) <==> Signed(a) <= Signed(b)
    ensures Satisfied(Greater, Compare(a, b)) <==> Signed(a) > Signed(b)
    ensures Satisfied(GreaterEqual, Compare(a, b)) <==> Signed(a) >= Signed(b)
    ensures Satisfied(Equal, Compare(a, b)) <==> a == b
    ensures Satisfied(NotEqual, Compare(a, b)) <==> a != b
  {
  }

  /** `cqo` extends the sign: the pair has the value of `RAX`. */
  lemma CqoExtends(a: Word)
    ensures Signed128(if a >= TWO63 then TWO64 - 1 else 0, a) == Signed(a)
  {
  }
}
