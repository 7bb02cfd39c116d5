/** Lowered expressions compute what the expressions mean. */
module LoweringExprs {
  import opened Words
  import opened Ir
  import opened Semantics
  import opened Ast
  import opened Lowering
  import opened LoweringRuns

  predicate InScope<T>(scopes: seq<map<string, T>>, i: nat, x: string) {
    i < |scopes| && x in scopes[i]
  }

  /** Two names that share a local are the same name of the same scope. */
  predicate Apart(scopes: seq<map<string, Local>>, i: nat, x: string, j: nat, y: string)
    requires InScope(scopes, i, x) && InScope(scopes, j, y)
  {
    scopes[i][x] == scopes[j][y] ==> i == j && x == y
  }

  /** Live names have distinct locals, all taken from the counter. */
  ghost predicate ScopesOk(scopes: seq<map<string, Local>>, nextLocal: nat) {
    && (forall i: nat, x :: InScope(scopes, i, x) ==> scopes[i][x] < nextLocal)
    && (forall i: nat, x, j: nat, y :: InScope(scopes, i, x) && InScope(scopes, j, y) ==> Apart(scopes, i, x, j, y))
  }

  /** The code generated so far is the beginning of the function that runs. */
  ghost predicate FitsIn(c: Ctx, g: Gen) {
    CtxOk(c) && g.body <= Code(c) && g.nextLocal <= c.p.functions[c.f].localCount
  }

  /** Variable `x` of scope `i`, if initialised, has its value in its local. */
  predicate VarHolds(st: Store, scopes: seq<map<string, Local>>, locals: map<Local, Word>, i: nat, x: string)
    requires InScope(st, i, x) && InScope(scopes, i, x)
  {
    st[i][x].Some? ==> scopes[i][x] in locals && locals[scopes[i][x]] == st[i][x].value
  }

  ghost predicate SameNames(st: Store, scopes: seq<map<string, Local>>) {
    |st| == |scopes| && forall i: nat, x :: InScope(st, i, x) <==> InScope(scopes, i, x)
  }

  ghost predicate HasLocals(c: Ctx, locals: map<Local, Word>)
    requires c.f < |c.p.functions|
  {
    forall l: Local :: l < c.p.functions[c.f].localCount ==> l in locals
  }

  /** Every initialised variable has its value in its local. */
  ghost predicate Holds(c: Ctx, st: Store, scopes: seq<map<string, Local>>, locals: map<Local, Word>)
    requires c.f < |c.p.functions|
  {
    && SameNames(st, scopes)
    && HasLocals(c, locals)
    && forall i: nat, x :: InScope(st, i, x) ==> VarHolds(st, scopes, locals, i, x)
  }

  /** Registers below `n` keep their values. */
  ghost predicate RegsKept(s: State, t: State, n: nat) {
    forall r :: r < n && r in s.regs ==> r in t.regs && t.regs[r] == s.regs[r]
  }

  lemma SameScope(st: Store, scopes: seq<map<string, Local>>, x: string)
    requires SameNames(st, scopes)
    ensures FindScope(st, x) == FindScope(scopes, x)
    ensures FindScope(st, x).Some? ==>
              InScope(st, FindScope(st, x).value, x) && InScope(scopes, FindScope(scopes, x).value, x)
  {
    var a, b := FindScope(st, x), FindScope(scopes, x);
    if a.Some? {
      assert InScope(st, a.value, x);
      assert InScope(scopes, a.value, x);
    }
    if b.Some? {
      assert InScope(scopes, b.value, x);
      assert InScope(st, b.value, x);
    }
  }

  /** The effect of evaluating an expression on the running code. */
  ghost predicate ExprDone(c: Ctx, g: Gen, e: Expr, st: Store, s: State, t: State)
    requires EvalExpr(e, st).Val? && c.f < |c.p.functions|
  {
    var (g', r) := GenExpr(g, e);
    && Reaches(c, |g.body|, s, |g'.body|, t, 0)
    && Holds(c, EvalExpr(e, st).st, g.scopes, t.locals)
    && r in t.regs && t.regs[r] == EvalExpr(e, st).v
    && RegsKept(s, t, g.nextReg)
  }

  lemma {:induction false} ExprSim(c: Ctx, g: Gen, e: Expr, st: Store, s: State) returns (t: State)
    requires FitsIn(c, GenExpr(g, e).0) && !GenExpr(g, e).0.failed
    requires ScopesOk(g.scopes, g.nextLocal) && Holds(c, st, g.scopes, s.locals) && EvalExpr(e, st).Val?
    ensures ExprDone(c, g, e, st, s, t)
    decreases e
  {
    hide Reaches, FitsIn, CtxOk;
    var pc := |g.body|;
    match e
    case IntExpr(i) =>
      FitsAt(c, GenExpr(g, e).0, pc);
      DoConst(c, pc, s, g.nextReg, i);
      t := s.(regs := s.regs[g.nextReg := Unsigned(i)]);
    case BoolExpr(b) =>
      FitsAt(c, GenExpr(g, e).0, pc);
      DoConst(c, pc, s, g.nextReg, if b then 1 else 0);
      t := s.(regs := s.regs[g.nextReg := FromBool(b)]);
    case VarExpr(x) =>
      SameScope(st, g.scopes, x);
      FitsAt(c, GenExpr(g, e).0, pc);
      var l := Resolve(g, x).value;
      DoLoad(c, pc, s, g.nextReg, l);
      t := s.(regs := s.regs[g.nextReg := s.locals[l]]);
    case BinaryExpr(_, _, _, _) => t := BinarySim(c, g, e, st, s);
    case NegExpr(_, _) => t := UnarySim(c, g, e, st, s);
    case NotExpr(_, _) => t := UnarySim(c, g, e, st, s);
    case AssignExpr(_, _) => t := AssignSim(c, g, e, st, s);
  }

  lemma {:induction false} BinarySim(c: Ctx, g: Gen, e: Expr, st: Store, s: State) returns (t: State)
    requires e.BinaryExpr?
    requires FitsIn(c, GenExpr(g, e).0) && !GenExpr(g, e).0.failed
    requires ScopesOk(g.scopes, g.nextLocal) && Holds(c, st, g.scopes, s.locals) && EvalExpr(e, st).Val?
    ensures ExprDone(c, g, e, st, s, t)
    decreases e, 0
  {
    hide Holds, ScopesOk, Reaches, FitsIn, CtxOk, EvalInt;
    var (g1, a) := GenExpr(g, e.lhs);
    var (g2, b) := GenExpr(g1, e.rhs);
    var (g', d) := GenExpr(g, e);
    var st1 := EvalExpr(e.lhs, st).st;
    PrefixFits(c, g2, g');
    PrefixFits(c, g1, g2);
    var s1 := ExprSim(c, g, e.lhs, st, s);
    var s2 := ExprSim(c, g1, e.rhs, st1, s1);
    var v := EvalExpr(e, st).v;
    FitsAt(c, g', |g2.body|);
    DoBinary(c, |g2.body|, s2, e.op, d, a, b, e.kind, v);
    t := s2.(regs := s2.regs[d := v]);
    ReachesTrans(c, |g.body|, s, |g1.body|, s1, 0, |g2.body|, s2, 0);
    ReachesTrans(c, |g.body|, s, |g2.body|, s2, 0, |g'.body|, t, 0);
  }

  lemma {:induction false} UnarySim(c: Ctx, g: Gen, e: Expr, st: Store, s: State) returns (t: State)
    requires e.NegExpr? || e.NotExpr?
    requires FitsIn(c, GenExpr(g, e).0) && !GenExpr(g, e).0.failed
    requires ScopesOk(g.scopes, g.nextLocal) && Holds(c, st, g.scopes, s.locals) && EvalExpr(e, st).Val?
    ensures ExprDone(c, g, e, st, s, t)
    decreases e, 0
  {
    hide Holds, ScopesOk, Reaches, FitsIn, CtxOk, EvalBinary, Resolve, WithZero;
    var (g1, a) := GenExpr(g, e.operand);
    var (g', d) := GenExpr(g, e);
    PrefixFits(c, g1, g');
    var s1 := ExprSim(c, g, e.operand, st, s);
    var v := EvalExpr(e, st).v;
    if e.NegExpr? {
      t := ZeroSim(c, g1, Sub, g1.nextReg + 1, a, e.kind, s1, v);
    } else {
      t := ZeroSim(c, g1, BinaryOp.Eq, a, g1.nextReg + 1, e.kind, s1, v);
    }
    ReachesTrans(c, |g.body|, s, |g1.body|, s1, 0, |g'.body|, t, 0);
  }

  /** The value of an operand next to the zero in register `zero`. */
  function ZeroOr(regs: map<Reg, Word>, zero: Reg, r: Reg): Option<Word> {
    if r == zero then Some(0) else if r in regs then Some(regs[r]) else None
  }

  /** The code of `WithZero`. */
  lemma ZeroSim(c: Ctx, g: Gen, op: BinaryOp, x: Reg, y: Reg, k: TypeKind, s: State, v: Word) returns (t: State)
    requires FitsIn(c, WithZero(g, Binary(op, g.nextReg, x, y, k)).0)
    requires ZeroOr(s.regs, g.nextReg + 1, x).Some? && ZeroOr(s.regs, g.nextReg + 1, y).Some?
    requires EvalBinary(op, k, ZeroOr(s.regs, g.nextReg + 1, x).value, ZeroOr(s.regs, g.nextReg + 1, y).value) == Some(v)
    ensures Reaches(c, |g.body|, s, |WithZero(g, Binary(op, g.nextReg, x, y, k)).0.body|, t, 0)
    ensures t.locals == s.locals && g.nextReg in t.regs && t.regs[g.nextReg] == v && RegsKept(s, t, g.nextReg)
  {
    hide Reaches, FitsIn, CtxOk, EvalInt;
    var g' := WithZero(g, Binary(op, g.nextReg, x, y, k)).0;
    var pc := |g.body|;
    FitsAt(c, g', pc);
    FitsAt(c, g', pc + 1);
    DoConst(c, pc, s, g.nextReg + 1, 0);
    var s1 := s.(regs := s.regs[g.nextReg + 1 := 0]);
    DoBinary(c, pc + 1, s1, op, g.nextReg, x, y, k, v);
    t := s1.(regs := s1.regs[g.nextReg := v]);
    ReachesTrans(c, pc, s, pc + 1, s1, 0, pc + 2, t, 0);
  }

  lemma {:induction false} AssignSim(c: Ctx, g: Gen, e: Expr, st: Store, s: State) returns (t: State)
    requires e.AssignExpr?
    requires FitsIn(c, GenExpr(g, e).0) && !GenExpr(g, e).0.failed
    requires ScopesOk(g.scopes, g.nextLocal) && Holds(c, st, g.scopes, s.locals) && EvalExpr(e, st).Val?
    ensures ExprDone(c, g, e, st, s, t)
    decreases e, 0
  {
    hide Holds, ScopesOk, Reaches, FitsIn, CtxOk;
    var l := Resolve(g, e.name).value;
    var (g1, r) := GenExpr(g, e.rhs);
    var (g', _) := GenExpr(g, e);
    PrefixFits(c, g1, g');
    var s1 := ExprSim(c, g, e.rhs, st, s);
    var v := EvalExpr(e, st).v;
    var st1 := EvalExpr(e.rhs, st).st;
    FitsAt(c, g', |g1.body|);
    AssignLocal(c, st1, g, e.name, v, s1.locals);
    DoStore(c, |g1.body|, s1, l, r);
    t := s1.(locals := s1.locals[l := v]);
    ReachesTrans(c, |g.body|, s, |g1.body|, s1, 0, |g'.body|, t, 0);
  }

  /** Assigning a variable in the store and in its local. */
  lemma AssignLocal(c: Ctx, st: Store, g: Gen, x: string, v: Word, locals: map<Local, Word>)
    requires FitsIn(c, g) && ScopesOk(g.scopes, g.nextLocal) && Holds(c, st, g.scopes, locals)
    requires Resolve(g, x).Some? && SetVar(st, x, v).Some?
    ensures Resolve(g, x).value in locals
    ensures Holds(c, SetVar(st, x, v).value, g.scopes, locals[Resolve(g, x).value := v])
  {
    SameScope(st, g.scopes, x);
    var k := FindScope(st, x).value;
    var l := g.scopes[k][x];
    var st' := SetVar(st, x, v).value;
    var locals' := locals[l := v];
    forall i: nat, y
      ensures InScope(st', i, y) <==> InScope(g.scopes, i, y)
    {
      assert InScope(st', i, y) <==> InScope(st, i, y);
    }
    forall i: nat, y | InScope(st', i, y)
      ensures VarHolds(st', g.scopes, locals', i, y)
    {
      assert InScope(st, i, y) && VarHolds(st, g.scopes, locals, i, y);
      assert Apart(g.scopes, i, y, k, x);
    }
  }

  lemma FitsAt(c: Ctx, g: Gen, i: nat)
    requires FitsIn(c, g) && i < |g.body|
    ensures CtxOk(c) && i < |Code(c)| && Code(c)[i] == g.body[i]
  {
  }

  lemma PrefixFits(c: Ctx, g: Gen, g': Gen)
    requires FitsIn(c, g') && g.body <= g'.body && g.nextLocal <= g'.nextLocal
    ensures FitsIn(c, g)
  {
  }
}
