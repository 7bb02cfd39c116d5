/** Declarations: what the order of binding and initialising means. */
module LoweringDecls {
  import opened Words
  import opened Ir
  import opened Semantics
  import opened Ast
  import opened Lowering
  import opened LoweringRuns
  import opened LoweringExprs

  predicate Mentions(e: Expr, x: string) {
    match e
    case IntExpr(_) => false
    case BoolExpr(_) => false
    case VarExpr(y) => x == y
    case BinaryExpr(_, l, r, _) => Mentions(l, x) || Mentions(r, x)
    case NegExpr(a, _) => Mentions(a, x)
    case NotExpr(a, _) => Mentions(a, x)
    case AssignExpr(y, r) => x == y || Mentions(r, x)
  }

  /** No initialiser mentions the name it declares. */
  predicate DeclsOk(s: Stmt)
    decreases s, 1
  {
    match s
    case VarDecl(x, Some(e)) => !Mentions(e, x)
    case IfStmt(_, t, els) => BlockDeclsOk(t) && ElseDeclsOk(els)
    case WhileStmt(_, b, _) => BlockDeclsOk(b)
    case BlockStmt(b) => BlockDeclsOk(b)
    case _ => true
  }

  predicate ElseDeclsOk(els: Else)
    decreases els, 1
  {
    match els
    case NoElse => true
    case ElseIf(_, t, rest) => BlockDeclsOk(t) && ElseDeclsOk(rest)
    case ElseBlock(b) => BlockDeclsOk(b)
  }

  predicate BlockDeclsOk(b: Block)
    decreases b, 0
  {
    b == [] || (DeclsOk(b[0]) && BlockDeclsOk(b[1..]))
  }

  function Bind(st: Store, x: string, v: Option<Word>): Store
    requires |st| > 0
  {
    st[|st| - 1 := st[|st| - 1][x := v]]
  }

  lemma BindFind(st: Store, x: string, v: Option<Word>, y: string)
    requires |st| > 0
    ensures y != x ==> FindScope(Bind(st, x, v), y) == FindScope(st, y)
    ensures FindScope(Bind(st, x, v), x) == Some(|st| - 1)
  {
    assert Bind(st, x, v)[..|st| - 1] == st[..|st| - 1];
  }

  /** Evaluation keeps the scopes. */
  lemma {:induction false} EvalDepth(e: Expr, st: Store)
    ensures EvalExpr(e, st).Val? ==> |EvalExpr(e, st).st| == |st|
  {
    match e
    case BinaryExpr(_, l, r, _) =>
      EvalDepth(l, st);
      if EvalExpr(l, st).Val? {
        EvalDepth(r, EvalExpr(l, st).st);
      }
    case NegExpr(a, _) => EvalDepth(a, st);
    case NotExpr(a, _) => EvalDepth(a, st);
    case AssignExpr(_, r) => EvalDepth(r, st);
    case _ =>
  }

  /** An expression does not notice a variable it does not mention. */
  lemma {:induction false} EvalBind(e: Expr, st: Store, x: string, w: Option<Word>)
    requires |st| > 0 && !Mentions(e, x)
    ensures EvalExpr(e, st).Val? ==> |EvalExpr(e, st).st| == |st|
    ensures EvalExpr(e, Bind(st, x, w)) ==
              match EvalExpr(e, st)
              case Wrong => Wrong
              case Val(v, st1) => if |st1| > 0 then Val(v, Bind(st1, x, w)) else Wrong
  {
    EvalDepth(e, st);
    match e
    case VarExpr(y) =>
      BindFind(st, x, w, y);
    case BinaryExpr(_, l, r, _) =>
      EvalBind(l, st, x, w);
      if EvalExpr(l, st).Val? {
        EvalBind(r, EvalExpr(l, st).st, x, w);
      }
    case NegExpr(a, _) => EvalBind(a, st, x, w);
    case NotExpr(a, _) => EvalBind(a, st, x, w);
    case AssignExpr(y, r) =>
      EvalBind(r, st, x, w);
      if EvalExpr(r, st).Val? {
        var st1 := EvalExpr(r, st).st;
        EvalDepth(r, st);
        BindFind(st1, x, w, y);
        BindSet(st1, x, w, y, EvalExpr(r, st).v);
      }
    case _ =>
  }

  lemma BindSet(st: Store, x: string, w: Option<Word>, y: string, v: Word)
    requires |st| > 0 && x != y
    ensures SetVar(Bind(st, x, w), y, v) ==
              match SetVar(st, y, v)
              case None => None
              case Some(st1) => if |st1| > 0 then Some(Bind(st1, x, w)) else None
  {
    BindFind(st, x, w, y);
    var i := FindScope(st, y);
    if i.Some? {
      var a := SetVar(Bind(st, x, w), y, v).value;
      var b := Bind(SetVar(st, y, v).value, x, w);
      if i.value == |st| - 1 {
        var scope: map<string, Option<Word>> := st[i.value];
        var with: map<string, Option<Word>> := scope[x := w];
        var set_: map<string, Option<Word>> := scope[y := Some(v)];
        assert with[y := Some(v)] == set_[x := w];
      }
      assert a == b;
    }
  }

  // --- binding a local ---

  lemma BindScopes(g: Gen, x: string)
    requires |g.scopes| > 0 && ScopesOk(g.scopes, g.nextLocal)
    ensures ScopesOk(BindLocal(g, x).scopes, BindLocal(g, x).nextLocal)
    ensures Resolve(BindLocal(g, x), x) == Some(g.nextLocal)
  {
    var g1 := BindLocal(g, x);
    var top := |g.scopes| - 1;
    forall i: nat, y, j: nat, z | InScope(g1.scopes, i, y) && InScope(g1.scopes, j, z)
      ensures Apart(g1.scopes, i, y, j, z)
    {
      var newY := i == top && y == x;
      var newZ := j == top && z == x;
      if !newY {
        assert InScope(g.scopes, i, y);
      }
      if !newZ {
        assert InScope(g.scopes, j, z);
      }
      if !newY && !newZ {
        assert Apart(g.scopes, i, y, j, z);
      }
    }
    forall i: nat, y | InScope(g1.scopes, i, y)
      ensures g1.scopes[i][y] < g1.nextLocal
    {
      if !(i == top && y == x) {
        assert InScope(g.scopes, i, y);
      }
    }
  }

  lemma BindHolds(c: Ctx, g: Gen, x: string, st: Store, locals: map<Local, Word>)
    requires c.f < |c.p.functions| && |g.scopes| > 0 && Holds(c, st, g.scopes, locals)
    ensures |st| > 0 && Holds(c, Bind(st, x, None), BindLocal(g, x).scopes, locals)
  {
    var g1 := BindLocal(g, x);
    var st1 := Bind(st, x, None);
    forall i: nat, y
      ensures InScope(st1, i, y) <==> InScope(g1.scopes, i, y)
    {
      assert InScope(st, i, y) <==> InScope(g.scopes, i, y);
    }
    forall i: nat, y | InScope(st1, i, y)
      ensures VarHolds(st1, g1.scopes, locals, i, y)
    {
      if !(i == |st| - 1 && y == x) {
        assert InScope(st, i, y) && VarHolds(st, g.scopes, locals, i, y);
      }
    }
  }

  /** The initialised variable after the value has been stored. */
  lemma InitHolds(c: Ctx, g: Gen, x: string, st: Store, v: Word, locals: map<Local, Word>)
    requires |g.scopes| > 0 && |st| > 0 && FitsIn(c, BindLocal(g, x)) && ScopesOk(g.scopes, g.nextLocal)
    requires Holds(c, Bind(st, x, None), BindLocal(g, x).scopes, locals)
    ensures g.nextLocal in locals
    ensures Holds(c, Bind(st, x, Some(v)), BindLocal(g, x).scopes, locals[g.nextLocal := v])
  {
    BindScopes(g, x);
    BindFind(st, x, None, x);
    AssignLocal(c, Bind(st, x, None), BindLocal(g, x), x, v, locals);
    var scope: map<string, Option<Word>> := st[|st| - 1];
    var declared: map<string, Option<Word>> := scope[x := None];
    assert declared[x := Some(v)] == scope[x := Some(v)];
    assert SetVar(Bind(st, x, None), x, v).value == Bind(st, x, Some(v));
  }

  /** Statements keep the scopes in order. */
  lemma StmtScopes(g: Gen, s: Stmt)
    requires |g.scopes| > 0 && ScopesOk(g.scopes, g.nextLocal)
    ensures ScopesOk(GenStmt(g, s).scopes, GenStmt(g, s).nextLocal)
  {
    if s.VarDecl? && !g.terminated {
      BindScopes(g, s.name);
    } else {
      ScopesLater(g.scopes, g.nextLocal, GenStmt(g, s).nextLocal);
    }
  }

  lemma ScopesLater(scopes: seq<map<string, Local>>, n: nat, m: nat)
    requires ScopesOk(scopes, n) && n <= m
    ensures ScopesOk(scopes, m)
  {
  }
}
