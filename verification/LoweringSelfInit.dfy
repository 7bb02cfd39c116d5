/** A declaration whose initialiser mentions the name it declares: the local is
    bound before the initialiser is generated, so the name means the new,
    uninitialised local and not the variable outside. */
module LoweringSelfInit {
  import opened Words
  import opened Ir
  import opened Semantics
  import opened WellFormed
  import opened Ast
  import opened Lowering
  import opened LoweringRuns
  import opened LoweringExprs
  import opened LoweringDecls

  /** Two states that differ only in what the name `x` means, and perhaps in
      code generated before. */
  ghost predicate DifferAt(g: Gen, h: Gen, x: string) {
    && h == g.(scopes := h.scopes, body := h.body) && |g.body| == |h.body|
    && (forall y :: y != x ==> Resolve(g, y) == Resolve(h, y))
    && Resolve(g, x).Some? && Resolve(h, x).Some? && Resolve(g, x) != Resolve(h, x)
  }

  ghost predicate SameSoFar(g: Gen, h: Gen, e: Expr, x: string) {
    var (g1, r) := GenExpr(g, e);
    var (h1, q) := GenExpr(h, e);
    && r == q && h1 == g1.(scopes := h1.scopes, body := h1.body) && |g1.body| == |h1.body|
    && (g1.body == h1.body <==> g.body == h.body && !Mentions(e, x))
  }

  /** The code is the same exactly if the expression does not mention the name. */
  lemma {:induction false} SameCode(g: Gen, h: Gen, e: Expr, x: string)
    requires DifferAt(g, h, x) && !GenExpr(g, e).0.failed && !GenExpr(h, e).0.failed
    ensures SameSoFar(g, h, e, x)
    decreases e
  {
    hide Resolve, DifferAt;
    ResolveSame(g, h, x);
    match e
    case VarExpr(y) =>
      SameEnd(g.body, h.body, LoadLocal(g.nextReg, Resolve(g, y).value), LoadLocal(g.nextReg, Resolve(h, y).value));
    case BinaryExpr(op, l, r, k) =>
      SameCode(g, h, l, x);
      var (g1, a) := GenExpr(g, l);
      var (h1, _) := GenExpr(h, l);
      StillDiffer(g, h, g1, h1, x);
      SameCode(g1, h1, r, x);
      var (g2, b) := GenExpr(g1, r);
      var (h2, _) := GenExpr(h1, r);
      SameEnd(g2.body, h2.body, Binary(op, g2.nextReg, a, b, k), Binary(op, g2.nextReg, a, b, k));
    case NegExpr(_, _) => UnarySame(g, h, e, x);
    case NotExpr(_, _) => UnarySame(g, h, e, x);
    case AssignExpr(y, r) =>
      SameCode(g, h, r, x);
      var (g1, a) := GenExpr(g, r);
      var (h1, _) := GenExpr(h, r);
      SameEnd(g1.body, h1.body, StoreLocal(Resolve(g, y).value, a), StoreLocal(Resolve(h, y).value, a));
    case IntExpr(i) => SameEnd(g.body, h.body, LoadConst(g.nextReg, i), LoadConst(g.nextReg, i));
    case BoolExpr(b) =>
      SameEnd(g.body, h.body, LoadConst(g.nextReg, if b then 1 else 0), LoadConst(g.nextReg, if b then 1 else 0));
  }

  lemma {:induction false} UnarySame(g: Gen, h: Gen, e: Expr, x: string)
    requires e.NegExpr? || e.NotExpr?
    requires DifferAt(g, h, x) && !GenExpr(g, e).0.failed && !GenExpr(h, e).0.failed
    ensures SameSoFar(g, h, e, x)
    decreases e, 0
  {
    hide Resolve, DifferAt, ExprGrows;
    SameCode(g, h, e.operand, x);
    var (g1, a) := GenExpr(g, e.operand);
    var (h1, _) := GenExpr(h, e.operand);
    var zero := LoadConst(g1.nextReg + 1, 0);
    SameEnd(g1.body, h1.body, zero, zero);
    var last := if e.NegExpr? then Binary(Sub, g1.nextReg, g1.nextReg + 1, a, e.kind)
      else Binary(BinaryOp.Eq, g1.nextReg, a, g1.nextReg + 1, e.kind);
    SameEnd(g1.body + [zero], h1.body + [zero], last, last);
  }

  lemma SameEnd(a: seq<Inst>, b: seq<Inst>, i: Inst, j: Inst)
    requires |a| == |b|
    ensures a + [i] == b + [j] <==> a == b && i == j
  {
    if a + [i] == b + [j] {
      assert (a + [i])[..|a|] == a && (b + [j])[..|a|] == b;
      assert (a + [i])[|a|] == i && (b + [j])[|a|] == j;
    }
  }

  lemma ResolveSame(g: Gen, h: Gen, x: string)
    requires DifferAt(g, h, x)
    ensures h == g.(scopes := h.scopes, body := h.body) && |g.body| == |h.body|
    ensures forall y :: Resolve(g, y) == Resolve(h, y) <==> y != x
    ensures forall y {:trigger Resolve(g, y)} :: Resolve(g, y) != Resolve(h, y) ==> Resolve(g, y).Some? && Resolve(h, y).Some?
  {
  }

  lemma StillDiffer(g: Gen, h: Gen, g1: Gen, h1: Gen, x: string)
    requires DifferAt(g, h, x) && g1.scopes == g.scopes && h1.scopes == h.scopes
    requires h1 == g1.(scopes := h1.scopes, body := h1.body) && |g1.body| == |h1.body|
    ensures DifferAt(g1, h1, x)
  {
    assert forall y :: Resolve(g1, y) == Resolve(g, y) && Resolve(h1, y) == Resolve(h, y);
  }

  /** For a name that is visible outside: the initialiser is generated as if it
      stood outside exactly if it does not mention the declared name. */
  lemma InitSeesOutside(g: Gen, x: string, e: Expr)
    requires |g.scopes| > 0 && ScopesOk(g.scopes, g.nextLocal) && Resolve(g, x).Some?
    requires !GenExpr(BindLocal(g, x), e).0.failed && !GenExpr(g.(nextLocal := g.nextLocal + 1), e).0.failed
    ensures GenExpr(BindLocal(g, x), e).0.body == GenExpr(g.(nextLocal := g.nextLocal + 1), e).0.body
            <==> !Mentions(e, x)
  {
    hide ScopesOk;
    var inside, outside := BindLocal(g, x), g.(nextLocal := g.nextLocal + 1);
    BindScopes(g, x);
    OldLocal(g, x);
    forall y | y != x
      ensures Resolve(inside, y) == Resolve(outside, y)
    {
      BindResolve(g, x, y);
    }
    assert Resolve(outside, x) == Resolve(g, x);
    SameCode(inside, outside, e, x);
  }

  lemma OldLocal(g: Gen, x: string)
    requires ScopesOk(g.scopes, g.nextLocal) && Resolve(g, x).Some?
    ensures Resolve(g, x).value < g.nextLocal
  {
    assert InScope(g.scopes, FindScope(g.scopes, x).value, x);
  }

  lemma BindResolve(g: Gen, x: string, y: string)
    requires |g.scopes| > 0 && x != y
    ensures Resolve(BindLocal(g, x), y) == Resolve(g, y)
  {
    assert BindLocal(g, x).scopes[..|g.scopes| - 1] == g.scopes[..|g.scopes| - 1];
  }

  // --- what it does to a run ---

  /** `f(x) { x := x + 1 as a new variable; return x }` */
  function Shadowing(): Func {
    Func("main", ["x"], false,
         [VarDecl("x", Some(BinaryExpr(Add, VarExpr("x"), IntExpr(1), I64))), ReturnStmt(Some(VarExpr("x")))], [])
  }

  function ShadowingCode(): seq<Inst> {
    [LoadLocal(0, 1), LoadConst(1, 1), Binary(Add, 2, 0, 1, I64), StoreLocal(1, 2), LoadLocal(3, 1), Return(3)]
  }

  lemma ShadowingLowers()
    ensures GenFunc(Shadowing(), 0) == GenFunc(Shadowing(), 0).(body := ShadowingCode(), nextLocal := 2, failed := false)
  {
    var f := Shadowing();
    var decl, ret := f.body[0], f.body[1];
    var g0 := StartFunc(f, 0);
    assert ArgScope(f.args, 1, map["x" := 0]) == map["x" := 0];
    assert g0.scopes == [map["x" := 0]];
    var g1 := g0.(scopes := g0.scopes + [map[]]);
    var e := decl.init.value;
    var g2 := BindLocal(g1, "x");
    assert g2.scopes == [map["x" := 0], map["x" := 1]];
    assert Resolve(g2, "x") == Some(1);
    var (g3, v) := GenExpr(g2, e);
    assert g3.body == [LoadLocal(0, 1), LoadConst(1, 1), Binary(Add, 2, 0, 1, I64)] && v == 2 && g3.nextReg == 3;
    var g4 := GenStmt(g1, decl);
    assert g4.body == g3.body + [StoreLocal(1, 2)];
    assert Resolve(g4, "x") == Some(1);
    var g5 := GenStmt(g4, ret);
    assert g5.body == ShadowingCode();
    assert f.body[1..] == [ret] && f.body[1..][1..] == [];
    assert GenStmts(g4, f.body[1..]) == g5;
    assert GenStmts(g1, f.body) == g5;
  }

  /** Called with 5 the source returns 6; the compiled code returns one more than
      whatever the new local happened to hold. */
  lemma ShadowingRuns(env: Env, p: Program, h: History, junk: Word, n: nat)
    requires |p.functions| == 1 && p.functions[0] == Lowered(Shadowing(), 0, 0)
    requires forall l :: !InMemory(env, "main", l)
    requires (Uninitialised(1), h + [Enter("main", [5])]) in env.query
    requires env.query[(Uninitialised(1), h + [Enter("main", [5])])] == junk && junk < 100
    ensures ExecFunc(Shadowing(), [5], 0) == Returned(6)
    ensures RunFn(env, p, 0, [5], h, n) == Done(junk + 1, h + [Enter("main", [5])] + [Leave(junk + 1)])
  {
    hide ExecFunc, GenFunc, Returns, Shadowing;
    ShadowingLowers();
    var c := Ctx(env, p, 0);
    var s := Entry(env, p.functions[0], [5], h);
    ShadowingShape();
    ShadowingBody(c, s, junk);
    ShadowingReturns(c, s, n, junk + 1);
    ShadowingSource();
  }

  lemma ShadowingShape()
    ensures var f := Lowered(Shadowing(), 0, 0); f.body == ShadowingCode() && f.name == "main" && f.localCount == 2 && !f.isExtern
    ensures UniqueLabels(ShadowingCode())
  {
    hide GenFunc;
    ShadowingLowers();
  }

  lemma ShadowingBody(c: Ctx, s: State, junk: Word)
    requires CtxOk(c) && Code(c) == ShadowingCode() && 1 in s.locals && s.locals[1] == junk && junk < 100
    ensures Returns(c, 0, s, junk + 1, 0)
  {
    hide Reaches, Returns, CtxOk, Code;
    var s4 := ShadowingDecl(c, s, junk);
    DoLoad(c, 4, s4, 3, 1);
    var s5 := s4.(regs := s4.regs[3 := junk + 1]);
    DoReturn(c, 5, s5, 3);
    ReachesTrans(c, 0, s, 4, s4, 0, 5, s5, 0);
    ReturnsTrans(c, 0, s, 5, s5, 0, junk + 1, 0);
  }

  lemma ShadowingDecl(c: Ctx, s: State, junk: Word) returns (t: State)
    requires CtxOk(c) && Code(c) == ShadowingCode() && 1 in s.locals && s.locals[1] == junk && junk < 100
    ensures Reaches(c, 0, s, 4, t, 0) && 1 in t.locals && t.locals[1] == junk + 1
  {
    hide Reaches, CtxOk, Code;
    DoLoad(c, 0, s, 0, 1);
    var s1 := s.(regs := s.regs[0 := junk]);
    DoConst(c, 1, s1, 1, 1);
    var s2 := s1.(regs := s1.regs[1 := 1]);
    DoBinary(c, 2, s2, Add, 2, 0, 1, I64, junk + 1);
    var s3 := s2.(regs := s2.regs[2 := junk + 1]);
    DoStore(c, 3, s3, 1, 2);
    t := s3.(locals := s3.locals[1 := junk + 1]);
    ReachesTrans(c, 0, s, 1, s1, 0, 2, s2, 0);
    ReachesTrans(c, 0, s, 2, s2, 0, 3, s3, 0);
    ReachesTrans(c, 0, s, 3, s3, 0, 4, t, 0);
  }

  lemma ShadowingReturns(c: Ctx, s: State, n: nat, v: Word)
    requires Returns(c, 0, s, v, 0)
    ensures Run(c, 0, s, n) == Done(v, s.h + [Leave(v)])
  {
  }

  lemma ShadowingSource()
    ensures ExecFunc(Shadowing(), [5], 0) == Returned(6)
  {
    var f := Shadowing();
    var decl, ret := f.body[0], f.body[1];
    var args: map<string, Option<Word>> := map["x" := Some(5)];
    assert BindArgs(f.args, [5], 1, args) == args;
    var st: Store := [args, map[]];
    assert [args] + [map[]] == st;
    assert st[..1] == [args];
    assert FindScope([args], "x") == Some(0);
    assert FindScope(st, "x") == Some(0);
    var inner: map<string, Option<Word>> := map["x" := Some(6)];
    var st1: Store := [args, inner];
    assert EvalExpr(decl.init.value, st) == Val(6, st);
    assert ExecStmt(decl, st, 0) == Normal(st1);
    assert FindScope(st1, "x") == Some(1);
    assert EvalExpr(VarExpr("x"), st1) == Val(6, st1);
    assert f.body[1..] == [ret];
    assert ExecStmts(f.body[1..], st1, 0) == Returned(6);
    assert ExecStmts(f.body, st, 0) == Returned(6);
  }
}
