/** Constant folding and algebraic renaming: `fold_int` and `fold_constants`. */
module FoldPass {
  import opened Words
  import opened Ir
  import opened IrObjects
  import opened WellFormed
  import opened Compaction
  import opened Simulation
  import opened Rewriting

  /** `fold_int`: operands and result are stored as `int64_t`, the arithmetic is
      done on `uint64_t` or `int64_t` as the kind asks. `None` is an invalid fold. */
  function FoldInt(op: BinaryOp, lhs: Int64, rhs: Int64, kind: TypeKind): Option<Int64> {
    if !IsScalarIntKind(kind) then None
    else
      var a := Unsigned(lhs);
      var b := Unsigned(rhs);
      var signed := IsSignedIntKind(kind);
      match op
      case Add => Some(Signed(Wrap(a + b)))
      case Sub => Some(Signed(Wrap(a - b)))
      case Mul => Some(Signed(Wrap(a * b)))
      case Div =>
        if b == 0 then None
        else if signed && a == TWO63 && b == TWO64 - 1 then None
        else if signed then FoldSignedDiv(lhs, rhs)
        else FoldUnsignedDiv(a, b)
      case Eq => Some(if a == b then 1 else 0)
      case NotEq => Some(if a != b then 1 else 0)
      case Lt => Some(if signed then (if lhs < rhs then 1 else 0) else (if a < b then 1 else 0))
      case Lte => Some(if signed then (if lhs <= rhs then 1 else 0) else (if a <= b then 1 else 0))
      case Gt => Some(if signed then (if lhs > rhs then 1 else 0) else (if a > b then 1 else 0))
      case Gte => Some(if signed then (if lhs >= rhs then 1 else 0) else (if a >= b then 1 else 0))
      case BitAnd => Some(Signed(And64(a, b)))
      case BitOr => Some(Signed(Or64(a, b)))
      case LogicAnd => Some(if a != 0 && b != 0 then 1 else 0)
      case LogicOr => Some(if a != 0 || b != 0 then 1 else 0)
  }

  function FoldSignedDiv(a: Int64, b: Int64): Option<Int64>
    requires b != 0 && !(a == -TWO63 && b == -1)
  {
    TruncDivRange(a, b);
    Some(TruncDiv(a, b))
  }

  function FoldUnsignedDiv(a: Word, b: Word): Option<Int64>
    requires b != 0
  {
    DivBound(a, b);
    Some(Signed(a / b))
  }

  /** Folding succeeds exactly when the instruction cannot trap, and then gives
      the value the processor would leave in the register. */
  lemma FoldIntExact(op: BinaryOp, lhs: Int64, rhs: Int64, kind: TypeKind)
    requires IsScalarIntKind(kind)
    ensures FoldInt(op, lhs, rhs, kind).Some? <==> EvalInt(op, kind, Unsigned(lhs), Unsigned(rhs)).Some?
    ensures FoldInt(op, lhs, rhs, kind).Some? ==>
              EvalInt(op, kind, Unsigned(lhs), Unsigned(rhs)).value == Unsigned(FoldInt(op, lhs, rhs, kind).value)
  {
    if op == Div {
      FoldDivExact(lhs, rhs, kind);
    } else {
      FoldWordExact(op, lhs, rhs, kind);
    }
  }

  /** Everything but division: one word, or a truth value. */
  lemma FoldWordExact(op: BinaryOp, lhs: Int64, rhs: Int64, kind: TypeKind)
    requires IsScalarIntKind(kind) && op != Div
    ensures FoldInt(op, lhs, rhs, kind).Some? && EvalInt(op, kind, Unsigned(lhs), Unsigned(rhs)).Some?
    ensures EvalInt(op, kind, Unsigned(lhs), Unsigned(rhs)).value == Unsigned(FoldInt(op, lhs, rhs, kind).value)
  {
    hide And64, Or64, Wrap;
    SignedUnsigned(lhs);
    SignedUnsigned(rhs);
    var a: int, b: int := Unsigned(lhs), Unsigned(rhs);
    match op
    case Add => UnsignedSigned(Wrap(a + b));
    case Sub => UnsignedSigned(Wrap(a - b));
    case Mul => UnsignedSigned(Wrap(a * b));
    case BitAnd => UnsignedSigned(And64(a, b));
    case BitOr => UnsignedSigned(Or64(a, b));
    case _ =>
  }

  lemma UnsignedSigned(w: Word)
    ensures Unsigned(Signed(w)) == w
  {
  }

  lemma FoldDivExact(lhs: Int64, rhs: Int64, kind: TypeKind)
    requires IsScalarIntKind(kind)
    ensures FoldInt(Div, lhs, rhs, kind).Some? <==> EvalInt(Div, kind, Unsigned(lhs), Unsigned(rhs)).Some?
    ensures FoldInt(Div, lhs, rhs, kind).Some? ==>
              EvalInt(Div, kind, Unsigned(lhs), Unsigned(rhs)).value == Unsigned(FoldInt(Div, lhs, rhs, kind).value)
  {
    SignedUnsigned(lhs);
    SignedUnsigned(rhs);
    if FoldInt(Div, lhs, rhs, kind).Some? {
      if IsSignedIntKind(kind) {
        TruncDivRange(lhs, rhs);
        WrapIsUnsigned(TruncDiv(lhs, rhs));
      } else {
        DivBound(Unsigned(lhs), Unsigned(rhs));
      }
    }
  }

  lemma WrapIsUnsigned(i: Int64)
    ensures Wrap(i) == Unsigned(i)
  {
  }

  /** `x * 0`, `0 * x`, `x & 0`, `0 & x`. */
  predicate Absorbs(op: BinaryOp, l: Option<Int64>, r: Option<Int64>) {
    (op == Mul || op == BitAnd) && (l == Some(0) || r == Some(0))
  }

  /** The operand that `op` with an identity constant copies: `Some(true)` is the left one. */
  function IdentitySide(op: BinaryOp, l: Option<Int64>, r: Option<Int64>): Option<bool> {
    match op
    case Add => if r == Some(0) then Some(true) else if l == Some(0) then Some(false) else None
    case Sub => if r == Some(0) then Some(true) else None
    case Mul => if r == Some(1) then Some(true) else if l == Some(1) then Some(false) else None
    case Div => if r == Some(1) then Some(true) else None
    case BitOr => if r == Some(0) then Some(true) else if l == Some(0) then Some(false) else None
    case _ => None
  }

  ghost predicate FitsConst(k: Option<Int64>, a: Word) {
    k.Some? ==> a == Unsigned(k.value)
  }

  lemma AbsorbsZero(op: BinaryOp, kind: TypeKind, l: Option<Int64>, r: Option<Int64>, a: Word, b: Word)
    requires IsScalarIntKind(kind) && Absorbs(op, l, r) && FitsConst(l, a) && FitsConst(r, b)
    ensures EvalInt(op, kind, a, b) == Some(0)
  {
    Pow2Is64();
    if op == Mul {
      assert a * b == 0;
    } else if a == 0 {
      AndZero(64, b);
    } else {
      AndZero(64, a);
    }
  }

  lemma IdentityCopies(op: BinaryOp, kind: TypeKind, l: Option<Int64>, r: Option<Int64>, a: Word, b: Word)
    requires IsScalarIntKind(kind) && IdentitySide(op, l, r).Some? && FitsConst(l, a) && FitsConst(r, b)
    requires EvalInt(op, kind, a, b).Some?
    ensures EvalInt(op, kind, a, b).value == if IdentitySide(op, l, r).value then a else b
  {
    match op
    case Mul => MulOne(a, b);
    case Div => DivOne(kind, a);
    case BitOr =>
      Pow2Is64();
      if b == 0 {
        OrZero(64, a);
      } else {
        OrZero(64, b);
      }
    case _ =>
  }

  lemma MulOne(a: Word, b: Word)
    ensures b == 1 ==> Wrap(a * b) == a
    ensures a == 1 ==> Wrap(a * b) == b
  {
  }

  lemma DivOne(kind: TypeKind, a: Word)
    requires IsScalarIntKind(kind)
    ensures EvalInt(Div, kind, a, 1) == Some(a)
  {
    assert Signed(1) == 1;
    assert TruncDiv(Signed(a), 1) == Signed(a);
  }

  // --- the certificate the loop builds ---

  /** The constants that the first `n` instructions load. */
  function ConstantsOf(body: seq<Inst>, n: nat): map<Reg, Int64>
    requires n <= |body|
  {
    if n == 0 then map[]
    else if body[n - 1].LoadConst? then ConstantsOf(body, n - 1)[body[n - 1].dst := body[n - 1].imm]
    else ConstantsOf(body, n - 1)
  }

  /** The constants of a body: the first loop of the pass. */
  method CollectConstants(body: seq<Inst>) returns (consts: map<Reg, Int64>)
    requires SingleDef(body)
    ensures consts == ConstantsOf(body, |body|)
    ensures forall r :: r in consts <==> exists i :: 0 <= i < |body| && body[i].LoadConst? && body[i].dst == r
    ensures forall i :: 0 <= i < |body| && body[i].LoadConst? ==>
              body[i].dst in consts && consts[body[i].dst] == body[i].imm
  {
    consts := map[];
    for k := 0 to |body|
      invariant consts == ConstantsOf(body, k)
      invariant forall r :: r in consts <==> exists i :: 0 <= i < k && body[i].LoadConst? && body[i].dst == r
      invariant forall i :: 0 <= i < k && body[i].LoadConst? ==>
                  body[i].dst in consts && consts[body[i].dst] == body[i].imm
    {
      if body[k].LoadConst? {
        assert forall i :: 0 <= i < k && body[i].LoadConst? ==> Def(body[i]) != Def(body[k]);
        consts := consts[body[k].dst := body[k].imm];
      }
    }
  }

  function Lookup(m: map<Reg, Int64>, r: Reg): Option<Int64> {
    if r in m then Some(m[r]) else None
  }

  ghost function FoldCert(old_: seq<Inst>, cur: seq<Inst>, erase: seq<bool>, ren: map<Reg, Reg>,
                          consts: map<Reg, Int64>): Cert {
    Cert(cur, erase, ren, consts, AvailAll(old_), SameLocals(old_))
  }

  /** `ren` after every read of `dst` has been redirected to `keep`. */
  ghost function Redirect(ren: map<Reg, Reg>, dst: Reg, keep: Reg): (m: map<Reg, Reg>)
    ensures dst !in ren ==> forall r :: Ren(m, r) == if Ren(ren, r) == dst then keep else Ren(ren, r)
    ensures m.Keys == ren.Keys + {dst}
  {
    map r | r in ren.Keys + {dst} :: if r == dst || ren[r] == dst then keep else ren[r]
  }

  lemma RenameAgain(ren: map<Reg, Reg>, dst: Reg, keep: Reg, inst: Inst)
    requires dst !in ren
    ensures Rename(map[dst := keep], Rename(ren, inst)) == Rename(Redirect(ren, dst, keep), inst)
  {
    RenameTwice(map[dst := keep], ren, Redirect(ren, dst, keep), inst);
  }

  lemma RenameTwice(m: map<Reg, Reg>, ren: map<Reg, Reg>, m1: map<Reg, Reg>, inst: Inst)
    requires forall r :: Ren(m, Ren(ren, r)) == Ren(m1, r)
    ensures Rename(m, Rename(ren, inst)) == Rename(m1, inst)
  {
    hide Ren;
    if inst.Call? {
      assert RenAll(m, RenAll(ren, inst.args)) == RenAll(m1, inst.args);
    }
  }

  /** Constants are the `LoadConst` definitions of the body. */
  ghost predicate ConstsOf(old_: seq<Inst>, consts: map<Reg, Int64>) {
    forall r :: r in consts ==> exists i :: 0 <= i < |old_| && old_[i] == LoadConst(r, consts[r])
  }

  /** What holds of instruction `k` while the pass runs. */
  ghost predicate FoldedInst(old_: seq<Inst>, c: Cert, k: nat)
    requires k < |old_| == |c.newBody| == |c.dead| && |c.regs| == |old_| + 1
  {
    && (c.newBody[k] == Rename(c.ren, old_[k])
        || (old_[k].Binary? && c.newBody[k].LoadConst? && c.newBody[k].dst == old_[k].dst
            && FoldsTo(c.ren, c.consts, old_[k], c.newBody[k].imm)))
    && (c.dead[k] ==> ErasedCopy(c, old_[k], k) && old_[k].dst in c.ren)
    && (!c.dead[k] && Def(old_[k]).Some? ==> Def(old_[k]).value !in c.ren)
    && (Def(old_[k]).Some? && Def(old_[k]).value in c.ren ==> c.ren[Def(old_[k]).value] in Flow(old_, k))
  }

  ghost predicate FoldInv(old_: seq<Inst>, c: Cert) {
    && |old_| == |c.newBody| == |c.dead|
    && c.regs == AvailAll(old_) && c.locals == SameLocals(old_)
    && ConstsOf(old_, c.consts)
    && (forall r :: r in c.ren ==> c.ren[r] !in c.ren && r !in c.consts)
    && forall k :: 0 <= k < |old_| ==> FoldedInst(old_, c, k)
  }

  lemma FoldStart(body: seq<Inst>, erase: seq<bool>, consts: map<Reg, Int64>)
    requires ConstsOf(body, consts) && |erase| == |body| && forall i :: 0 <= i < |erase| ==> !erase[i]
    ensures FoldInv(body, FoldCert(body, body, erase, map[], consts))
  {
    forall k | 0 <= k < |body|
      ensures FoldedInst(body, FoldCert(body, body, erase, map[], consts), k)
    {
      RenameNothing(body[k]);
    }
  }

  /** When the pass is done, its certificate is valid. */
  lemma FoldEnd(body: seq<Inst>, c: Cert)
    requires WfBody(body) && FoldInv(body, c)
    ensures CertOk(body, c) && KeepsLabels(body, c)
  {
    forall pc | 0 <= pc < |body|
      ensures StepOk(body, c, pc)
    {
      assert FoldedInst(body, c, pc);
      forall q | Succ(body, pc, q)
        ensures FlowOk(body, c, pc, q)
      {
        forall r ensures r in Avail(body, q) ==> r in Avail(body, pc) || Def(body[pc]) == Some(r) {
          AvailFlows(body, pc, q, r);
        }
      }
      if !c.dead[pc] {
        FoldKept(body, c, pc);
      } else {
        assert Succ(body, pc, pc + 1);
        assert FlowOk(body, c, pc, pc + 1);
      }
    }
    assert forall pc :: 0 <= pc < |body| && c.dead[pc] ==> FoldedInst(body, c, pc);
  }

  lemma FoldKept(body: seq<Inst>, c: Cert, pc: nat)
    requires WfBody(body) && FoldInv(body, c) && pc < |body| && !c.dead[pc]
    ensures KeptOk(body, c, pc)
  {
    hide FoldsTo, Copies, ErasedCopy, TerminatorsLast, UniqueLabels;
    assert FoldedInst(body, c, pc);
    var inst := body[pc];
    if Def(inst).Some? {
      var d := Def(inst).value;
      if d in c.consts {
        var i :| 0 <= i < |body| && body[i] == LoadConst(d, c.consts[d]);
        assert i == pc;
      }
      forall r | r in c.regs[pc + 1] && r != d
        ensures Ren(c.ren, r) != d
      {
        RootApart(body, c, pc, r);
      }
    }
  }

  /** What stands for an available register is not overwritten. */
  lemma RootApart(body: seq<Inst>, c: Cert, pc: nat, r: Reg)
    requires WfBody(body) && FoldInv(body, c) && pc < |body|
    requires r in c.regs[pc + 1] && Def(body[pc]).Some? && r != Def(body[pc]).value
    ensures Ren(c.ren, r) != Def(body[pc]).value
  {
    hide FoldsTo, Copies, ErasedCopy, Rename, LocalUses, TerminatorsLast, UniqueLabels;
    if r in c.ren {
      var i := FlowDef(body, pc + 1, r);
      assert FoldedInst(body, c, i);
      var j := FlowDef(body, i, c.ren[r]);
      assert j < pc;
    }
  }

  // --- the steps of the loop ---

  /** Replacing an instruction by the constant it must compute. */
  lemma FoldOne(old_: seq<Inst>, c: Cert, i: nat, v: Int64)
    requires FoldInv(old_, c) && i < |old_| && old_[i].Binary? && !c.dead[i]
    requires FoldsTo(c.ren, c.consts, old_[i], v)
    ensures FoldInv(old_, c.(newBody := c.newBody[i := LoadConst(old_[i].dst, v)]))
  {
    var c' := c.(newBody := c.newBody[i := LoadConst(old_[i].dst, v)]);
    forall k | 0 <= k < |old_|
      ensures FoldedInst(old_, c', k)
    {
      assert FoldedInst(old_, c, k);
    }
  }

  /** More renaming only adds knowledge about constants. */
  lemma RedirectFits(ren: map<Reg, Reg>, consts: map<Reg, Int64>, dst: Reg, keep: Reg, inst: Inst)
    requires dst !in ren && dst !in consts && inst.Binary?
    ensures forall v :: FoldsTo(ren, consts, inst, v) ==> FoldsTo(Redirect(ren, dst, keep), consts, inst, v)
    ensures forall left :: Copies(ren, consts, inst, left) ==> Copies(Redirect(ren, dst, keep), consts, inst, left)
  {
    var m := Redirect(ren, dst, keep);
    assert forall r, a: Word :: Fits(m, consts, r, a) ==> Fits(ren, consts, r, a);
  }

  /** Erasing a copy and redirecting the reads of its result. */
  lemma RedirectOne(old_: seq<Inst>, c: Cert, i: nat, left: bool, body': seq<Inst>)
    requires WfBody(old_) && FoldInv(old_, c) && i < |old_| && !c.dead[i]
    requires old_[i].Binary? && c.newBody[i] == Rename(c.ren, old_[i])
    requires Copies(c.ren, c.consts, old_[i], left)
    requires Ren(c.ren, Side(old_[i], left)) != old_[i].dst
    requires |body'| == |old_|
    requires forall k :: 0 <= k < |old_| ==>
               body'[k] == Rename(map[old_[i].dst := Ren(c.ren, Side(old_[i], left))], c.newBody[k])
    ensures FoldInv(old_, Cert(body', c.dead[i := true], Redirect(c.ren, old_[i].dst, Ren(c.ren, Side(old_[i], left))),
                               c.consts, c.regs, c.locals))
  {
    hide Rename, FoldsTo, Copies, Fits, WfBody;
    var dst := old_[i].dst;
    var keep := Ren(c.ren, Side(old_[i], left));
    KeepFacts(old_, c, i, left);
    var c' := Cert(body', c.dead[i := true], Redirect(c.ren, dst, keep), c.consts, c.regs, c.locals);
    forall k | 0 <= k < |old_|
      ensures FoldedInst(old_, c', k)
    {
      RedirectInst(old_, c, i, left, body', k);
    }
    forall r | r in c'.ren
      ensures c'.ren[r] !in c'.ren && r !in c'.consts
    {
    }
  }

  /** The register a copy is redirected to is defined earlier in the block. */
  lemma KeepFacts(old_: seq<Inst>, c: Cert, i: nat, left: bool)
    requires WfBody(old_) && FoldInv(old_, c) && i < |old_| && !c.dead[i] && old_[i].Binary?
    ensures Ren(c.ren, Side(old_[i], left)) in Flow(old_, i) && Ren(c.ren, Side(old_[i], left)) !in c.ren
    ensures old_[i].lhs in c.regs[i] && old_[i].rhs in c.regs[i]
    ensures old_[i].dst !in c.ren && old_[i].dst !in c.consts
  {
    var inst := old_[i];
    assert Uses(inst) == [inst.lhs, inst.rhs] && !inst.LabelMark?;
    assert inst.lhs in Uses(inst) && inst.rhs in Uses(inst);
    RootAvailable(old_, c, i, Side(inst, left));
    assert FoldedInst(old_, c, i) && Def(inst) == Some(inst.dst);
    NotConst(old_, c.consts, i);
  }

  lemma RootAvailable(old_: seq<Inst>, c: Cert, i: nat, r: Reg)
    requires FoldInv(old_, c) && i <= |old_| && r in Flow(old_, i)
    ensures Ren(c.ren, r) in Flow(old_, i) && Ren(c.ren, r) !in c.ren
  {
    if r in c.ren {
      var j := FlowDef(old_, i, r);
      assert FoldedInst(old_, c, j);
    }
  }

  lemma NotConst(old_: seq<Inst>, consts: map<Reg, Int64>, i: nat)
    requires SingleDef(old_) && ConstsOf(old_, consts) && i < |old_| && old_[i].Binary?
    ensures old_[i].dst !in consts
  {
    if old_[i].dst in consts {
      var j :| 0 <= j < |old_| && old_[j] == LoadConst(old_[i].dst, consts[old_[i].dst]);
      var d, e := Def(old_[j]), Def(old_[i]);
    }
  }

  lemma RenameConst(m: map<Reg, Reg>, inst: Inst)
    ensures inst.LoadConst? ==> Rename(m, inst) == inst
  {
  }

  lemma RedirectInst(old_: seq<Inst>, c: Cert, i: nat, left: bool, body': seq<Inst>, k: nat)
    requires WfBody(old_) && FoldInv(old_, c) && i < |old_| && !c.dead[i] && k < |old_|
    requires old_[i].Binary? && c.newBody[i] == Rename(c.ren, old_[i])
    requires Copies(c.ren, c.consts, old_[i], left)
    requires Ren(c.ren, Side(old_[i], left)) != old_[i].dst
    requires Ren(c.ren, Side(old_[i], left)) in Flow(old_, i)
    requires old_[i].lhs in c.regs[i] && old_[i].rhs in c.regs[i]
    requires old_[i].dst !in c.ren && old_[i].dst !in c.consts
    requires |body'| == |old_|
    requires body'[k] == Rename(map[old_[i].dst := Ren(c.ren, Side(old_[i], left))], c.newBody[k])
    ensures FoldedInst(old_, Cert(body', c.dead[i := true], Redirect(c.ren, old_[i].dst, Ren(c.ren, Side(old_[i], left))),
                                  c.consts, c.regs, c.locals), k)
  {
    hide Rename, FoldsTo, Copies, Fits, LocalUses, TerminatorsLast, UniqueLabels;
    var dst := old_[i].dst;
    var keep := Ren(c.ren, Side(old_[i], left));
    var m := Redirect(c.ren, dst, keep);
    assert FoldedInst(old_, c, k);
    RenameAgain(c.ren, dst, keep, old_[k]);
    RenameConst(map[dst := keep], c.newBody[k]);
    if old_[k].Binary? {
      RedirectFits(c.ren, c.consts, dst, keep, old_[k]);
    }
    if Def(old_[k]).Some? {
      var d := Def(old_[k]).value;
      if d == dst {
        assert i == k;
      } else if d in m && c.ren[d] == dst {
        var j := FlowDef(old_, k, dst);
        assert j == i;
      }
    }
  }

  /** Both operands constant. */
  lemma FoldBoth(ren: map<Reg, Reg>, consts: map<Reg, Int64>, inst: Inst, l: Int64, r: Int64)
    requires inst.Binary? && Lookup(consts, Ren(ren, inst.lhs)) == Some(l) && Lookup(consts, Ren(ren, inst.rhs)) == Some(r)
    requires FoldInt(inst.op, l, r, inst.kind).Some?
    ensures FoldsTo(ren, consts, inst, FoldInt(inst.op, l, r, inst.kind).value)
  {
    FoldIntExact(inst.op, l, r, inst.kind);
  }

  lemma FoldAbsorb(ren: map<Reg, Reg>, consts: map<Reg, Int64>, inst: Inst)
    requires inst.Binary? && IsScalarIntKind(inst.kind)
    requires Absorbs(inst.op, Lookup(consts, Ren(ren, inst.lhs)), Lookup(consts, Ren(ren, inst.rhs)))
    ensures FoldsTo(ren, consts, inst, 0)
  {
    var l, r := Lookup(consts, Ren(ren, inst.lhs)), Lookup(consts, Ren(ren, inst.rhs));
    forall a: Word, b: Word | Fits(ren, consts, inst.lhs, a) && Fits(ren, consts, inst.rhs, b)
      ensures EvalInt(inst.op, inst.kind, a, b) == Some(0)
    {
      AbsorbsZero(inst.op, inst.kind, l, r, a, b);
    }
  }

  lemma FoldIdentity(ren: map<Reg, Reg>, consts: map<Reg, Int64>, inst: Inst)
    requires inst.Binary? && IsScalarIntKind(inst.kind)
    requires IdentitySide(inst.op, Lookup(consts, Ren(ren, inst.lhs)), Lookup(consts, Ren(ren, inst.rhs))).Some?
    ensures Copies(ren, consts, inst,
                   IdentitySide(inst.op, Lookup(consts, Ren(ren, inst.lhs)), Lookup(consts, Ren(ren, inst.rhs))).value)
  {
    var l, r := Lookup(consts, Ren(ren, inst.lhs)), Lookup(consts, Ren(ren, inst.rhs));
    forall a: Word, b: Word | Fits(ren, consts, inst.lhs, a) && Fits(ren, consts, inst.rhs, b) &&
                              EvalInt(inst.op, inst.kind, a, b).Some?
      ensures EvalInt(inst.op, inst.kind, a, b).value == if IdentitySide(inst.op, l, r).value then a else b
    {
      IdentityCopies(inst.op, inst.kind, l, r, a, b);
    }
  }

  /** `rename_reg_in_inst` over the whole body. */
  method RenameEverywhere(fn: IrFunction, from: Reg, to: Reg)
    modifies fn`body
    ensures |fn.body| == |old(fn.body)|
    ensures forall k :: 0 <= k < |fn.body| ==> fn.body[k] == Rename(map[from := to], old(fn.body)[k])
  {
    var k := 0;
    while k < |fn.body|
      invariant k <= |fn.body| == |old(fn.body)|
      invariant forall j :: 0 <= j < k ==> fn.body[j] == Rename(map[from := to], old(fn.body)[j])
      invariant forall j :: k <= j < |fn.body| ==> fn.body[j] == old(fn.body)[j]
    {
      fn.body := fn.body[k := Rename(map[from := to], fn.body[k])];
      k := k + 1;
    }
  }

  /** The state of the main loop before instruction `i`. */
  ghost predicate FoldState(was: seq<Inst>, body: seq<Inst>, erase: seq<bool>, ren: map<Reg, Reg>,
                            consts: map<Reg, Int64>, i: nat) {
    && |body| == |erase| == |was|
    && FoldInv(was, FoldCert(was, body, erase, ren, consts))
    && forall k :: i <= k < |was| ==> !erase[k] && body[k] == Rename(ren, was[k])
  }

  lemma FoldStateOne(was: seq<Inst>, body: seq<Inst>, erase: seq<bool>, ren: map<Reg, Reg>,
                     consts: map<Reg, Int64>, i: nat, v: Int64)
    requires FoldState(was, body, erase, ren, consts, i) && i < |was| && was[i].Binary?
    requires FoldsTo(ren, consts, was[i], v)
    ensures FoldState(was, body[i := LoadConst(was[i].dst, v)], erase, ren, consts, i + 1)
  {
    FoldOne(was, FoldCert(was, body, erase, ren, consts), i, v);
  }

  lemma FoldStateRedirect(was: seq<Inst>, body: seq<Inst>, erase: seq<bool>, ren: map<Reg, Reg>,
                          consts: map<Reg, Int64>, i: nat, left: bool, keep: Reg, body': seq<Inst>)
    requires WfBody(was) && FoldState(was, body, erase, ren, consts, i) && i < |was| && was[i].Binary?
    requires Copies(ren, consts, was[i], left)
    requires keep == Ren(ren, Side(was[i], left)) && keep != was[i].dst
    requires |body'| == |was| && forall k :: 0 <= k < |was| ==> body'[k] == Rename(map[was[i].dst := keep], body[k])
    ensures FoldState(was, body', erase[i := true], Redirect(ren, was[i].dst, keep), consts, i + 1)
  {
    var c := FoldCert(was, body, erase, ren, consts);
    RedirectOne(was, c, i, left, body');
    KeepFacts(was, c, i, left);
    forall k | i < k < |was|
      ensures body'[k] == Rename(Redirect(ren, was[i].dst, keep), was[k])
    {
      RenameAgain(ren, was[i].dst, keep, was[k]);
    }
  }

  /** The pass could still do something with the instruction. */
  predicate Foldable(inst: Inst, consts: map<Reg, Int64>) {
    inst.Binary? && IsScalarIntKind(inst.kind) &&
    var l, r := Lookup(consts, inst.lhs), Lookup(consts, inst.rhs);
    || (l.Some? && r.Some? && FoldInt(inst.op, l.value, r.value, inst.kind).Some?)
    || Absorbs(inst.op, l, r)
    || IdentitySide(inst.op, l, r).Some?
  }

  predicate Unfoldable(body: seq<Inst>, consts: map<Reg, Int64>) {
    forall k :: 0 <= k < |body| ==> !Foldable(body[k], consts)
  }

  /** Nothing to fold before instruction `i`. */
  predicate Settled(body: seq<Inst>, erase: seq<bool>, consts: map<Reg, Int64>, i: nat)
    requires i <= |body| == |erase|
  {
    forall k :: 0 <= k < i && !erase[k] ==> !Foldable(body[k], consts)
  }

  /** Renaming the result of instruction `i` does not touch earlier operations:
      they read only what is defined before them. */
  lemma SettledRedirect(was: seq<Inst>, body: seq<Inst>, erase: seq<bool>, ren: map<Reg, Reg>,
                        consts: map<Reg, Int64>, i: nat, keep: Reg, body': seq<Inst>)
    requires WfBody(was) && FoldState(was, body, erase, ren, consts, i) && i < |was| && was[i].Binary?
    requires Settled(body, erase, consts, i)
    requires |body'| == |was| && forall k :: 0 <= k < |was| ==> body'[k] == Rename(map[was[i].dst := keep], body[k])
    ensures Settled(body', erase[i := true], consts, i + 1)
  {
    hide FoldState, FoldInv, Foldable, Rename;
    var c := FoldCert(was, body, erase, ren, consts);
    FoldStateInv(was, body, erase, ren, consts, i);
    forall k: nat | k < i && !erase[k]
      ensures !Foldable(body'[k], consts)
    {
      SettledOne(was, c, i, keep, k);
    }
  }

  lemma FoldStateInv(was: seq<Inst>, body: seq<Inst>, erase: seq<bool>, ren: map<Reg, Reg>, consts: map<Reg, Int64>, i: nat)
    requires FoldState(was, body, erase, ren, consts, i)
    ensures |body| == |was| && FoldInv(was, FoldCert(was, body, erase, ren, consts))
  {
  }

  /** An earlier instruction is not touched by the renaming, or is no operation. */
  lemma SettledOne(was: seq<Inst>, c: Cert, i: nat, keep: Reg, k: nat)
    requires WfBody(was) && FoldInv(was, c) && k < i < |was| && was[i].Binary?
    requires !Foldable(c.newBody[k], c.consts)
    ensures !Foldable(Rename(map[was[i].dst := keep], c.newBody[k]), c.consts)
  {
    hide WfBody, FoldsTo, Copies, ErasedCopy, Rename, Foldable;
    var inst := c.newBody[k];
    var m := map[was[i].dst := keep];
    assert FoldedInst(was, c, k);
    if inst.Binary? {
      assert inst == Rename(c.ren, was[k]);
      RenameKind(c.ren, was[k]);
      RenamedOperands(c.ren, was[k]);
      OperandNot(was, c, k, i, was[k].lhs);
      OperandNot(was, c, k, i, was[k].rhs);
      RenamedOperands(m, inst);
      assert Rename(m, inst) == inst;
    } else {
      RenameKind(m, inst);
      NotFoldable(Rename(m, inst), c.consts);
    }
  }

  lemma RenameKind(m: map<Reg, Reg>, inst: Inst)
    ensures Rename(m, inst).Binary? <==> inst.Binary?
    ensures inst.Binary? ==> inst.lhs in Uses(inst) && inst.rhs in Uses(inst)
  {
    if inst.Binary? {
      assert Uses(inst)[0] == inst.lhs && Uses(inst)[1] == inst.rhs;
    }
  }

  lemma NotFoldable(inst: Inst, consts: map<Reg, Int64>)
    requires !inst.Binary?
    ensures !Foldable(inst, consts)
  {
  }

  /** An operation does not read its own result. */
  lemma OperandApart(was: seq<Inst>, body: seq<Inst>, erase: seq<bool>, ren: map<Reg, Reg>, consts: map<Reg, Int64>, i: nat)
    requires WfBody(was) && FoldState(was, body, erase, ren, consts, i) && i < |was| && was[i].Binary?
    ensures body[i].lhs != was[i].dst && body[i].rhs != was[i].dst
  {
    var c := FoldCert(was, body, erase, ren, consts);
    KeepFacts(was, c, i, true);
    KeepFacts(was, c, i, false);
    var j := FlowDef(was, i, body[i].lhs);
    var k := FlowDef(was, i, body[i].rhs);
    assert Def(was[i]) == Some(was[i].dst);
  }

  lemma OperandNot(old_: seq<Inst>, c: Cert, k: nat, i: nat, r: Reg)
    requires WfBody(old_) && FoldInv(old_, c) && k < i < |old_| && old_[i].Binary? && r in Uses(old_[k])
    ensures Ren(c.ren, r) != old_[i].dst
  {
    RootAvailable(old_, c, k, r);
    var j := FlowDef(old_, k, Ren(c.ren, r));
    assert Def(old_[i]) == Some(old_[i].dst);
  }

  /** An operation before its turn. */
  lemma FoldTurn(was: seq<Inst>, body: seq<Inst>, erase: seq<bool>, ren: map<Reg, Reg>, consts: map<Reg, Int64>, i: nat)
    requires WfBody(was) && FoldState(was, body, erase, ren, consts, i) && i < |body| && body[i].Binary?
    ensures i < |was| && was[i].Binary? && body[i] == Rename(ren, was[i])
    ensures body[i].lhs != was[i].dst && body[i].rhs != was[i].dst
  {
    OperandApart(was, body, erase, ren, consts, i);
  }

  /** A constant takes the place of the operation. */
  lemma TurnConst(was: seq<Inst>, body: seq<Inst>, erase: seq<bool>, ren: map<Reg, Reg>, consts: map<Reg, Int64>, i: nat,
                  v: Int64)
    requires FoldState(was, body, erase, ren, consts, i) && i < |was| && was[i].Binary?
    requires i < |body| == |erase| && Settled(body, erase, consts, i) && FoldsTo(ren, consts, was[i], v)
    ensures FoldState(was, body[i := LoadConst(was[i].dst, v)], erase, ren, consts, i + 1)
    ensures Settled(body[i := LoadConst(was[i].dst, v)], erase, consts, i + 1)
  {
    FoldStateOne(was, body, erase, ren, consts, i, v);
    hide FoldState, FoldInt, FoldsTo;
  }

  /** Nothing to be done. */
  lemma TurnNothing(was: seq<Inst>, body: seq<Inst>, erase: seq<bool>, ren: map<Reg, Reg>, consts: map<Reg, Int64>, i: nat)
    requires FoldState(was, body, erase, ren, consts, i) && i < |body| == |erase|
    requires Settled(body, erase, consts, i) && !Foldable(body[i], consts)
    ensures FoldState(was, body, erase, ren, consts, i + 1) && Settled(body, erase, consts, i + 1)
  {
    hide FoldInv, FoldInt;
  }

  /** One turn of the main loop: fold, absorb, or erase and rename. */
  method FoldAt(fn: IrFunction, i: nat, consts: map<Reg, Int64>, erase: seq<bool>,
                ghost was: seq<Inst>, ghost ren: map<Reg, Reg>)
    returns (erase': seq<bool>, ghost ren': map<Reg, Reg>, changed: bool)
    requires i < |fn.body| && WfBody(was) && FoldState(was, fn.body, erase, ren, consts, i)
    requires fn.body[i].Binary? && IsScalarIntKind(fn.body[i].kind)
    requires |fn.body| == |erase| == |was| && Settled(fn.body, erase, consts, i)
    modifies fn`body
    ensures |fn.body| == |erase'| == |was| && FoldState(was, fn.body, erase', ren', consts, i + 1)
    ensures Settled(fn.body, erase', consts, i + 1)
    ensures !changed ==> fn.body == old(fn.body) && erase' == erase
  {
    hide FoldState, Settled, WfBody, FoldInt, Rename, FoldsTo, Copies;
    var inst := fn.body[i];
    ghost var body, orig := fn.body, was[i];
    FoldTurn(was, body, erase, ren, consts, i);
    RenamedOperands(ren, orig);
    erase', ren', changed := erase, ren, true;
    var l, r := Lookup(consts, inst.lhs), Lookup(consts, inst.rhs);
    var folded := if l.Some? && r.Some? then FoldInt(inst.op, l.value, r.value, inst.kind) else None;
    if folded.Some? {
      FoldBoth(ren, consts, orig, l.value, r.value);
      TurnConst(was, body, erase, ren, consts, i, folded.value);
      fn.body := fn.body[i := LoadConst(inst.dst, folded.value)];
      return;
    }
    if Absorbs(inst.op, l, r) {
      FoldAbsorb(ren, consts, orig);
      TurnConst(was, body, erase, ren, consts, i, 0);
      fn.body := fn.body[i := LoadConst(inst.dst, 0)];
      return;
    }
    var side := IdentitySide(inst.op, l, r);
    if side.Some? {
      var keep := if side.value then inst.lhs else inst.rhs;
      if keep != inst.dst {
        FoldIdentity(ren, consts, orig);
        RenameEverywhere(fn, inst.dst, keep);
        FoldStateRedirect(was, body, erase, ren, consts, i, side.value, keep, fn.body);
        SettledRedirect(was, body, erase, ren, consts, i, keep, fn.body);
        erase', ren' := erase[i := true], Redirect(ren, inst.dst, keep);
        return;
      }
    }
    changed := false;
    TurnNothing(was, body, erase, ren, consts, i);
  }

  lemma RenamedOperands(ren: map<Reg, Reg>, inst: Inst)
    requires inst.Binary?
    ensures Rename(ren, inst) == Binary(inst.op, inst.dst, Ren(ren, inst.lhs), Ren(ren, inst.rhs), inst.kind)
    ensures forall left :: Ren(ren, Side(inst, left)) == if left then Rename(ren, inst).lhs else Rename(ren, inst).rhs
  {
  }

  lemma SettledCompact(body: seq<Inst>, erase: seq<bool>, consts: map<Reg, Int64>)
    requires |erase| == |body| && Settled(body, erase, consts, |body|)
    ensures Unfoldable(Compact(body, erase), consts)
  {
    hide Foldable;
    forall k: nat | k < |Compact(body, erase)|
      ensures !Foldable(Compact(body, erase)[k], consts)
    {
      var i := KeptOrigin(body, erase, |body|, k);
    }
  }

  /** The main loop. */
  method FoldAll(fn: IrFunction, consts: map<Reg, Int64>)
    returns (erase: seq<bool>, ghost ren: map<Reg, Reg>, changed: bool)
    requires WfBody(fn.body) && ConstsOf(fn.body, consts)
    modifies fn`body
    ensures |erase| == |fn.body| == |old(fn.body)|
    ensures FoldState(old(fn.body), fn.body, erase, ren, consts, |fn.body|)
    ensures Settled(fn.body, erase, consts, |fn.body|)
    ensures !changed ==> fn.body == old(fn.body) && forall k :: 0 <= k < |erase| ==> !erase[k]
  {
    hide Foldable, FoldState, WfBody, Settled, ConstsOf;
    ghost var was := fn.body;
    erase, ren, changed := seq(|fn.body|, _ => false), map[], false;
    FoldStateStart(was, erase, consts);
    var i := 0;
    while i < |fn.body|
      invariant i <= |fn.body| == |erase| == |was|
      invariant FoldState(was, fn.body, erase, ren, consts, i)
      invariant Settled(fn.body, erase, consts, i)
      invariant !changed ==> fn.body == was && forall k :: 0 <= k < |was| ==> !erase[k]
    {
      if fn.body[i].Binary? && IsScalarIntKind(fn.body[i].kind) {
        var c;
        erase, ren, c := FoldAt(fn, i, consts, erase, was, ren);
        changed := changed || c;
      } else {
        FoldSkip(was, fn.body, erase, ren, consts, i);
      }
      i := i + 1;
    }
  }

  lemma FoldStateStart(body: seq<Inst>, erase: seq<bool>, consts: map<Reg, Int64>)
    requires ConstsOf(body, consts) && |erase| == |body| && forall i :: 0 <= i < |erase| ==> !erase[i]
    ensures FoldState(body, body, erase, map[], consts, 0) && Settled(body, erase, consts, 0)
  {
    FoldStart(body, erase, consts);
    forall k | 0 <= k < |body| ensures body[k] == Rename(map[], body[k]) {
      RenameNothing(body[k]);
    }
  }

  lemma FoldSkip(was: seq<Inst>, body: seq<Inst>, erase: seq<bool>, ren: map<Reg, Reg>, consts: map<Reg, Int64>, i: nat)
    requires i < |body| == |erase| && FoldState(was, body, erase, ren, consts, i) && Settled(body, erase, consts, i)
    requires !(body[i].Binary? && IsScalarIntKind(body[i].kind))
    ensures FoldState(was, body, erase, ren, consts, i + 1) && Settled(body, erase, consts, i + 1)
  {
    hide FoldInv;
  }

  // --- what is left, spelled out ---

  ghost predicate Loads(body: seq<Inst>, r: Reg, c: Int64) {
    exists i :: 0 <= i < |body| && body[i] == LoadConst(r, c)
  }

  /** Neither an operation on two constants that does not trap, nor one with a
      neutral or absorbing constant; `was` is where the constants are loaded. */
  ghost predicate Simple(was: seq<Inst>, inst: Inst) {
    inst.Binary? && IsScalarIntKind(inst.kind) ==>
      && (forall a, b :: Loads(was, inst.lhs, a) && Loads(was, inst.rhs, b) ==>
            EvalInt(inst.op, inst.kind, Unsigned(a), Unsigned(b)).None?)
      && (Loads(was, inst.rhs, 0) ==>
            inst.op != Add && inst.op != Sub && inst.op != BitOr && inst.op != Mul && inst.op != BitAnd)
      && (Loads(was, inst.lhs, 0) ==> inst.op != Add && inst.op != BitOr && inst.op != Mul && inst.op != BitAnd)
      && (Loads(was, inst.rhs, 1) ==> inst.op != Mul && inst.op != Div)
      && (Loads(was, inst.lhs, 1) ==> inst.op != Mul)
  }

  ghost predicate AllSimple(was: seq<Inst>, body: seq<Inst>) {
    forall k :: 0 <= k < |body| ==> Simple(was, body[k])
  }

  lemma {:induction false} ConstantsMean(body: seq<Inst>, n: nat, r: Reg, c: Int64)
    requires n <= |body| && SingleDef(body)
    ensures Lookup(ConstantsOf(body, n), r) == Some(c) <==> exists i :: 0 <= i < n && body[i] == LoadConst(r, c)
  {
    if n > 0 {
      ConstantsMean(body, n - 1, r, c);
      if body[n - 1].LoadConst? && body[n - 1].dst == r {
        forall i | 0 <= i < n - 1
          ensures body[i] != LoadConst(r, c)
        {
          assert Def(body[i]) != Def(body[n - 1]);
        }
      }
    }
  }

  /** The same for operands that are known, or not, to be constants. */
  predicate SimpleFor(inst: Inst, l: Option<Int64>, r: Option<Int64>)
    requires inst.Binary? && IsScalarIntKind(inst.kind)
  {
    && (l.Some? && r.Some? ==> EvalInt(inst.op, inst.kind, Unsigned(l.value), Unsigned(r.value)).None?)
    && (r == Some(0) ==> inst.op != Add && inst.op != Sub && inst.op != BitOr && inst.op != Mul && inst.op != BitAnd)
    && (l == Some(0) ==> inst.op != Add && inst.op != BitOr && inst.op != Mul && inst.op != BitAnd)
    && (r == Some(1) ==> inst.op != Mul && inst.op != Div)
    && (l == Some(1) ==> inst.op != Mul)
  }

  lemma SimpleForIs(inst: Inst, consts: map<Reg, Int64>)
    requires inst.Binary? && IsScalarIntKind(inst.kind)
    ensures SimpleFor(inst, Lookup(consts, inst.lhs), Lookup(consts, inst.rhs)) <==> !Foldable(inst, consts)
  {
    var l, r := Lookup(consts, inst.lhs), Lookup(consts, inst.rhs);
    if l.Some? && r.Some? {
      FoldIntExact(inst.op, l.value, r.value, inst.kind);
    }
    hide FoldInt, EvalInt;
  }

  lemma LoadsIs(was: seq<Inst>, r: Reg)
    requires SingleDef(was)
    ensures forall c: Int64 :: Loads(was, r, c) <==> Lookup(ConstantsOf(was, |was|), r) == Some(c)
  {
    hide SingleDef;
    forall c: Int64
      ensures Loads(was, r, c) <==> Lookup(ConstantsOf(was, |was|), r) == Some(c)
    {
      ConstantsMean(was, |was|, r, c);
    }
  }

  lemma SimpleIs(was: seq<Inst>, inst: Inst)
    requires SingleDef(was)
    ensures Simple(was, inst) <==> !Foldable(inst, ConstantsOf(was, |was|))
  {
    hide SingleDef, ConstantsOf, Loads, EvalInt;
    if inst.Binary? && IsScalarIntKind(inst.kind) {
      LoadsIs(was, inst.lhs);
      LoadsIs(was, inst.rhs);
      SimpleForIs(inst, ConstantsOf(was, |was|));
      hide Foldable, Lookup;
      SimpleOf(was, inst, Lookup(ConstantsOf(was, |was|), inst.lhs), Lookup(ConstantsOf(was, |was|), inst.rhs));
    }
  }

  lemma SimpleOf(was: seq<Inst>, inst: Inst, l: Option<Int64>, r: Option<Int64>)
    requires inst.Binary? && IsScalarIntKind(inst.kind)
    requires forall c: Int64 :: Loads(was, inst.lhs, c) <==> l == Some(c)
    requires forall c: Int64 :: Loads(was, inst.rhs, c) <==> r == Some(c)
    ensures Simple(was, inst) <==> SimpleFor(inst, l, r)
  {
    hide Loads, EvalInt;
    assert Loads(was, inst.lhs, 0) <==> l == Some(0);
    assert Loads(was, inst.rhs, 0) <==> r == Some(0);
    assert Loads(was, inst.lhs, 1) <==> l == Some(1);
    assert Loads(was, inst.rhs, 1) <==> r == Some(1);
    if l.Some? && r.Some? {
      assert Loads(was, inst.lhs, l.value) && Loads(was, inst.rhs, r.value);
    }
  }

  lemma UnfoldableIs(was: seq<Inst>, body: seq<Inst>)
    requires SingleDef(was)
    ensures Unfoldable(body, ConstantsOf(was, |was|)) <==> AllSimple(was, body)
  {
    hide Simple, Foldable, SingleDef, ConstantsOf;
    forall k {:trigger body[k]} | 0 <= k < |body|
      ensures Simple(was, body[k]) <==> !Foldable(body[k], ConstantsOf(was, |was|))
    {
      SimpleIs(was, body[k]);
    }
  }

  /** Signed kinds compare as signed numbers, unsigned kinds and booleans as unsigned
      ones; nothing else is folded. */
  lemma FoldKinds(lhs: Int64, rhs: Int64, k: TypeKind)
    ensures k == I8 || k == I16 || k == I32 || k == I64 ==> FoldInt(Lt, lhs, rhs, k) == Some(if lhs < rhs then 1 else 0)
    ensures k == U8 || k == U16 || k == U32 || k == U64 || k == Bool ==>
              FoldInt(Lt, lhs, rhs, k) == Some(if Unsigned(lhs) < Unsigned(rhs) then 1 else 0)
    ensures !(k == I8 || k == I16 || k == I32 || k == I64 || k == U8 || k == U16 || k == U32 || k == U64 || k == Bool) ==>
              forall op :: FoldInt(op, lhs, rhs, k) == None
  {
  }

  /** `fold_constants`. The function before and after are related by a valid
      certificate, so by `RunSimulates` every run is preserved. */
  method FoldConstants(fn: IrFunction) returns (changed: bool)
    requires WfBody(fn.body)
    modifies fn`body
    ensures FnStep(old(fn.View()), fn.View())
    ensures !changed ==> fn.View() == old(fn.View())
    // no operation is left that the constants of the function could simplify
    ensures Unfoldable(fn.body, ConstantsOf(old(fn.body), |old(fn.body)|))
    ensures AllSimple(old(fn.body), fn.body)
  {
    hide AllSimple, Foldable, WfBody, Settled, FoldInv, CertOk, KeepsLabels;
    ghost var was := fn.body;
    assert SingleDef(was) by {
      WfSingle(was);
    }
    var consts := CollectConstants(fn.body);
    var erase: seq<bool>;
    ghost var ren: map<Reg, Reg>;
    erase, ren, changed := FoldAll(fn, consts);
    SettledCompact(fn.body, erase, consts);
    ghost var c := FoldCert(was, fn.body, erase, ren, consts);
    FoldEnd(was, c);
    if true in erase {
      CompactBody(fn, erase);
    } else {
      NothingDead(fn.body, erase, |fn.body|);
    }
    assert Certified(old(fn.View()), fn.View(), c);
    UnfoldableIs(was, fn.body);
  }

  lemma WfSingle(body: seq<Inst>)
    requires WfBody(body)
    ensures SingleDef(body)
  {
  }
}
