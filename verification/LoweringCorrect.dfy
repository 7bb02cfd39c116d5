/** Lowering preserves meaning: every statement, every outcome. */
module LoweringCorrect {
  import opened Words
  import opened Ir
  import opened Semantics
  import opened Ast
  import opened Lowering
  import opened LoweringRuns
  import opened LoweringExprs
  import opened LoweringDecls

  function Last(labels: seq<Label>): Label
    requires labels != []
  {
    labels[|labels| - 1]
  }

  /** An outcome other than the normal one, from `pc` on. The stack of break
      (continue) labels tells where a break (continue) goes. */
  ghost predicate Escapes(c: Ctx, g: Gen, scopes: seq<map<string, Local>>, r: Result, pc: nat, s: State, t: State, k: nat)
    requires c.f < |c.p.functions|
  {
    match r
    case Normal(_) => true
    case Broke(st) =>
      g.breaks != [] && Jumps(c, pc, s, Last(g.breaks), t, k) && Holds(c, st, scopes, t.locals)
    case Continued(st) =>
      g.continues != [] && Jumps(c, pc, s, Last(g.continues), t, k) && Holds(c, st, scopes, t.locals)
    case Returned(v) => Returns(c, pc, s, v, k)
    case Fail => true
    case Cut => Still(c, pc, s, k)
  }

  /** The code of a statement, from its start: a normal end reaches its end with
      the same variables; break, continue and return leave as they should. */
  ghost predicate Ends(c: Ctx, g: Gen, g': Gen, r: Result, s: State, t: State, k: nat)
    requires c.f < |c.p.functions|
  {
    && (r.Normal? ==> !g'.terminated && Reaches(c, |g.body|, s, |g'.body|, t, k)
                      && Holds(c, r.st, g'.scopes, t.locals))
    && Escapes(c, g, g.scopes, r, |g.body|, s, t, k)
  }

  /** Inside a block the innermost scope is about to be dropped. */
  ghost predicate EndsInside(c: Ctx, g: Gen, g': Gen, r: Result, s: State, t: State, k: nat)
    requires c.f < |c.p.functions| && |g.scopes| > 0
  {
    && (r.Normal? ==> !g'.terminated && Reaches(c, |g.body|, s, |g'.body|, t, k)
                      && Holds(c, r.st, g'.scopes, t.locals))
    && Escapes(c, g, g.scopes[..|g.scopes| - 1], Pop(r), |g.body|, s, t, k)
  }

  /** A branch of an `if`: a normal end jumps to the end label. */
  ghost predicate ArmEnds(c: Ctx, g: Gen, end: Label, flag: bool, r: Result, pc: nat, s: State, t: State, k: nat)
    requires c.f < |c.p.functions|
  {
    && (r.Normal? ==> !flag && Jumps(c, pc, s, end, t, k) && Holds(c, r.st, g.scopes, t.locals))
    && Escapes(c, g, g.scopes, r, pc, s, t, k)
  }

  lemma EscapesAfter(c: Ctx, g: Gen, scopes: seq<map<string, Local>>, r: Result, pc: nat, s: State, pc1: nat, s1: State,
                     t: State, k1: nat, k2: nat)
    requires Reaches(c, pc, s, pc1, s1, k1) && Escapes(c, g, scopes, r, pc1, s1, t, k2)
    ensures Escapes(c, g, scopes, r, pc, s, t, k1 + k2)
  {
    hide Still, Reaches, Jumps, Returns, Holds;
    match r
    case Broke(_) => JumpsTrans(c, pc, s, pc1, s1, k1, Last(g.breaks), t, k2);
    case Continued(_) => JumpsTrans(c, pc, s, pc1, s1, k1, Last(g.continues), t, k2);
    case Returned(v) => ReturnsTrans(c, pc, s, pc1, s1, k1, v, k2);
    case Cut => StillTrans(c, pc, s, pc1, s1, k1, k2);
    case _ =>
  }

  /** Dropping the innermost scope. */
  lemma PopHolds(c: Ctx, st: Store, scopes: seq<map<string, Local>>, locals: map<Local, Word>)
    requires c.f < |c.p.functions| && |scopes| > 0 && Holds(c, st, scopes, locals)
    ensures |st| > 0 && Holds(c, st[..|st| - 1], scopes[..|scopes| - 1], locals)
  {
    var st1, sc1 := st[..|st| - 1], scopes[..|scopes| - 1];
    forall i: nat, x
      ensures InScope(st1, i, x) <==> InScope(sc1, i, x)
    {
      assert InScope(st, i, x) <==> InScope(scopes, i, x);
    }
    forall i: nat, x | InScope(st1, i, x)
      ensures VarHolds(st1, sc1, locals, i, x)
    {
      assert InScope(st, i, x) && VarHolds(st, scopes, locals, i, x);
    }
  }

  lemma PushHolds(c: Ctx, st: Store, scopes: seq<map<string, Local>>, locals: map<Local, Word>)
    requires c.f < |c.p.functions| && Holds(c, st, scopes, locals)
    ensures Holds(c, st + [map[]], scopes + [map[]], locals)
  {
    var st1, sc1 := st + [map[]], scopes + [map[]];
    forall i: nat, x
      ensures InScope(st1, i, x) <==> InScope(sc1, i, x)
    {
      assert InScope(st, i, x) <==> InScope(scopes, i, x);
    }
    forall i: nat, x | InScope(st1, i, x)
      ensures VarHolds(st1, sc1, locals, i, x)
    {
      assert InScope(st, i, x) && VarHolds(st, scopes, locals, i, x);
    }
  }

  lemma PushScopes(scopes: seq<map<string, Local>>, n: nat)
    requires ScopesOk(scopes, n)
    ensures ScopesOk(scopes + [map[]], n)
  {
    var sc1 := scopes + [map[]];
    forall i: nat, x | InScope(sc1, i, x)
      ensures sc1[i][x] < n
    {
      assert InScope(scopes, i, x);
    }
    forall i: nat, x, j: nat, y | InScope(sc1, i, x) && InScope(sc1, j, y)
      ensures Apart(sc1, i, x, j, y)
    {
      assert InScope(scopes, i, x) && InScope(scopes, j, y) && Apart(scopes, i, x, j, y);
    }
  }

  /** The code of a statement fits and the state before it is right. */
  ghost predicate Ready(c: Ctx, g: Gen, g': Gen, st: Store, s: State) {
    && FitsIn(c, g') && !g'.failed
    && |g.scopes| > 0 && ScopesOk(g.scopes, g.nextLocal)
    && Holds(c, st, g.scopes, s.locals)
  }

  // --- statements ---

  lemma {:induction false} StmtSim(c: Ctx, g: Gen, x: Stmt, st: Store, n: nat, s: State) returns (t: State, k: nat)
    requires |g.scopes| > 0 && !g.terminated && DeclsOk(x) && Ready(c, g, GenStmt(g, x), st, s)
    ensures Ends(c, g, GenStmt(g, x), ExecStmt(x, st, n), s, t, k)
    ensures ExecStmt(x, st, n).Cut? ==> k > n
    decreases n, x, 1
  {
    hide Holds, Still, Reaches, Jumps, Returns, ScopesOk;
    t, k := s, 0;
    match x
    case ExprStmt(e) =>
      if EvalExpr(e, st).Val? {
        t := ExprSim(c, g, e, st, s);
      }
    case VarDecl(_, _) => t, k := DeclSim(c, g, x, st, n, s);
    case ReturnStmt(_) => k := ReturnSim(c, g, x, st, n, s);
    case BreakStmt => k := JumpSim(c, g, g.breaks, st, s);
    case ContinueStmt => k := JumpSim(c, g, g.continues, st, s);
    case IfStmt(_, _, _) => t, k := IfSim(c, g, x, st, n, s);
    case WhileStmt(_, _, _) => t, k := WhileSim(c, g, x, st, n, s);
    case BlockStmt(b) => t, k := BlockSim(c, g, b, st, n, s);
  }

  lemma DeclSim(c: Ctx, g: Gen, x: Stmt, st: Store, n: nat, s: State) returns (t: State, k: nat)
    requires x.VarDecl? && |g.scopes| > 0 && !g.terminated && DeclsOk(x) && Ready(c, g, GenStmt(g, x), st, s)
    ensures Ends(c, g, GenStmt(g, x), ExecStmt(x, st, n), s, t, k)
  {
    hide Holds, Reaches, ScopesOk, FitsIn, CtxOk;
    var g1 := BindLocal(g, x.name);
    var g' := GenStmt(g, x);
    FitsCtx(c, g');
    BindHolds(c, g, x.name, st, s.locals);
    BindScopes(g, x.name);
    t, k := s, 0;
    if x.init.None? {
      PrefixFits(c, g1, g');
      FitsCtx(c, g1);
      ReachesSelf(c, |g.body|, s);
    } else if EvalExpr(x.init.value, st).Val? {
      t := InitSim(c, g, x, st, s);
    }
  }

  lemma InitSim(c: Ctx, g: Gen, x: Stmt, st: Store, s: State) returns (t: State)
    requires x.VarDecl? && x.init.Some? && |g.scopes| > 0 && !g.terminated && DeclsOk(x)
    requires Ready(c, g, GenStmt(g, x), st, s) && EvalExpr(x.init.value, st).Val?
    ensures var Val(v, st1) := EvalExpr(x.init.value, st);
      && Reaches(c, |g.body|, s, |GenStmt(g, x).body|, t, 0) && |st1| > 0
      && Holds(c, Bind(st1, x.name, Some(v)), GenStmt(g, x).scopes, t.locals)
  {
    hide Holds, Reaches, ScopesOk, FitsIn, CtxOk, RegsKept, Mentions;
    var e := x.init.value;
    var g1 := BindLocal(g, x.name);
    var g' := GenStmt(g, x);
    var (g2, r) := GenExpr(g1, e);
    FitsCtx(c, g');
    BindHolds(c, g, x.name, st, s.locals);
    BindScopes(g, x.name);
    PrefixFits(c, g2, g');
    PrefixFits(c, g1, g2);
    EvalBind(e, st, x.name, None);
    EvalDepth(e, st);
    var Val(v, st1) := EvalExpr(e, st);
    var s1 := ExprSim(c, g1, e, Bind(st, x.name, None), s);
    InitHolds(c, g, x.name, st1, v, s1.locals);
    FitsAt(c, g', |g2.body|);
    DoStore(c, |g2.body|, s1, g.nextLocal, r);
    t := s1.(locals := s1.locals[g.nextLocal := v]);
    ReachesTrans(c, |g.body|, s, |g2.body|, s1, 0, |g'.body|, t, 0);
  }

  lemma FitsCtx(c: Ctx, g: Gen)
    requires FitsIn(c, g)
    ensures CtxOk(c) && c.f < |c.p.functions| && |g.body| <= |Code(c)|
  {
  }

  lemma ReturnSim(c: Ctx, g: Gen, x: Stmt, st: Store, n: nat, s: State) returns (k: nat)
    requires x.ReturnStmt? && |g.scopes| > 0 && !g.terminated && Ready(c, g, GenStmt(g, x), st, s)
    ensures Ends(c, g, GenStmt(g, x), ExecStmt(x, st, n), s, s, k)
  {
    hide Holds, Reaches, Returns, ScopesOk, FitsIn, CtxOk;
    var g' := GenStmt(g, x);
    var pc := |g.body|;
    k := 0;
    if x.result.None? {
      FitsAt(c, g', pc);
      FitsAt(c, g', pc + 1);
      DoConst(c, pc, s, g.nextReg, 0);
      var s1 := s.(regs := s.regs[g.nextReg := 0]);
      DoReturn(c, pc + 1, s1, g.nextReg);
      ReturnsTrans(c, pc, s, pc + 1, s1, 0, 0, 0);
    } else {
      var e := x.result.value;
      var (g1, r) := GenExpr(g, e);
      PrefixFits(c, g1, g');
      if EvalExpr(e, st).Val? {
        var s1 := ExprSim(c, g, e, st, s);
        FitsAt(c, g', |g1.body|);
        DoReturn(c, |g1.body|, s1, r);
        ReturnsTrans(c, pc, s, |g1.body|, s1, 0, EvalExpr(e, st).v, 0);
      }
    }
  }

  lemma JumpSim(c: Ctx, g: Gen, labels: seq<Label>, st: Store, s: State) returns (k: nat)
    requires FitsIn(c, GenJump(g, labels)) && !GenJump(g, labels).failed
    ensures k == 1 && labels != [] && Jumps(c, |g.body|, s, Last(labels), s, k)
  {
    FitsAt(c, GenJump(g, labels), |g.body|);
    DoJump(c, |g.body|, s, Last(labels));
    k := 1;
  }

  // --- blocks ---

  lemma {:induction false} BlockSim(c: Ctx, g: Gen, b: Block, st: Store, n: nat, s: State) returns (t: State, k: nat)
    requires !g.terminated && BlockDeclsOk(b) && Ready(c, g, GenBlock(g, b), st, s)
    ensures Ends(c, g, GenBlock(g, b), ExecBlock(b, st, n), s, t, k)
    ensures ExecBlock(b, st, n).Cut? ==> k > n
    decreases n, b, 1
  {
    hide Holds, Still, Reaches, Jumps, Returns, ScopesOk;
    var g0 := g.(terminated := false, scopes := g.scopes + [map[]]);
    PushHolds(c, st, g.scopes, s.locals);
    PushScopes(g.scopes, g.nextLocal);
    t, k := StmtsSim(c, g0, b, st + [map[]], n, s);
    assert g0.scopes[..|g.scopes|] == g.scopes;
    var r := ExecStmts(b, st + [map[]], n);
    if r.Normal? {
      PopHolds(c, r.st, GenStmts(g0, b).scopes, t.locals);
    }
  }

  lemma {:induction false} StmtsSim(c: Ctx, g: Gen, b: Block, st: Store, n: nat, s: State) returns (t: State, k: nat)
    requires |g.scopes| > 0 && !g.terminated && BlockDeclsOk(b) && Ready(c, g, GenStmts(g, b), st, s)
    ensures EndsInside(c, g, GenStmts(g, b), ExecStmts(b, st, n), s, t, k)
    ensures ExecStmts(b, st, n).Cut? ==> k > n
    decreases n, b, 0
  {
    hide Holds, Still, Reaches, Jumps, Returns, ScopesOk, FitsIn;
    t, k := s, 0;
    FitsCtx(c, GenStmts(g, b));
    if b == [] {
      FitsCtx(c, g);
      ReachesSelf(c, |g.body|, s);
    } else {
      var g1 := GenStmt(g, b[0]);
      PrefixFits(c, g1, GenStmts(g, b));
      t, k := StmtSim(c, g, b[0], st, n, s);
      var r := ExecStmt(b[0], st, n);
      if r.Normal? {
        StmtScopes(g, b[0]);
        var t1, k1 := StmtsSim(c, g1, b[1..], r.st, n, t);
        StmtsAfter(c, g, g1, b, r.st, n, s, t, k, t1, k1);
        t, k := t1, k + k1;
      } else {
        PopEscapes(c, g, r, s, t, k);
      }
    }
  }

  lemma PopEscapes(c: Ctx, g: Gen, r: Result, s: State, t: State, k: nat)
    requires c.f < |c.p.functions| && |g.scopes| > 0 && !r.Normal? && Escapes(c, g, g.scopes, r, |g.body|, s, t, k)
    ensures Escapes(c, g, g.scopes[..|g.scopes| - 1], Pop(r), |g.body|, s, t, k)
  {
    hide Holds, Still, Jumps, Returns;
    if r.Broke? || r.Continued? {
      PopHolds(c, r.st, g.scopes, t.locals);
    }
  }

  lemma StmtsAfter(c: Ctx, g: Gen, g1: Gen, b: Block, st: Store, n: nat, s: State, s1: State, k: nat, t: State, k1: nat)
    requires b != [] && |g.scopes| > 0 && !g.terminated && g1 == GenStmt(g, b[0]) && c.f < |c.p.functions|
    requires Reaches(c, |g.body|, s, |g1.body|, s1, k)
    requires EndsInside(c, g1, GenStmts(g1, b[1..]), ExecStmts(b[1..], st, n), s1, t, k1)
    ensures EndsInside(c, g, GenStmts(g1, b[1..]), ExecStmts(b[1..], st, n), s, t, k + k1)
  {
    hide Holds, Still, Reaches, Jumps, Returns, GenStmt, GenStmts, ExecStmts;
    var g' := GenStmts(g1, b[1..]);
    var r := ExecStmts(b[1..], st, n);
    if r.Normal? {
      ReachesTrans(c, |g.body|, s, |g1.body|, s1, k, |g'.body|, t, k1);
    }
    EscapesAfter(c, g1, g.scopes[..|g.scopes| - 1], Pop(r), |g.body|, s, |g1.body|, s1, t, k, k1);
  }

  // --- if ---

  /** The branch instruction: on to the chosen label. */
  lemma TestSim(c: Ctx, g: Gen, e: Expr, a: Label, b: Label, st: Store, s: State) returns (t: State)
    requires Ready(c, g, Emit(GenExpr(g, e).0, Branch(GenExpr(g, e).1, a, b)), st, s) && EvalExpr(e, st).Val?
    ensures Jumps(c, |g.body|, s, if EvalExpr(e, st).v != 0 then a else b, t, 1)
    ensures Holds(c, EvalExpr(e, st).st, g.scopes, t.locals)
  {
    hide Holds, Reaches, Jumps, ScopesOk, FitsIn, CtxOk;
    var (g1, r) := GenExpr(g, e);
    var g2 := Emit(g1, Branch(r, a, b));
    PrefixFits(c, g1, g2);
    t := ExprSim(c, g, e, st, s);
    FitsAt(c, g2, |g1.body|);
    DoBranch(c, |g1.body|, t, r, a, b);
    JumpsTrans(c, |g.body|, s, |g1.body|, t, 0, if EvalExpr(e, st).v != 0 then a else b, t, 1);
  }

  /** Arriving at a label of the generated code, and passing it. */
  lemma PassLabel(c: Ctx, g: Gen, q: nat, pc: nat, s: State, l: Label, t: State, k: nat)
    requires FitsIn(c, g) && q < |g.body| && g.body[q] == LabelMark(l) && Jumps(c, pc, s, l, t, k)
    ensures Reaches(c, pc, s, q + 1, t, k) && Reaches(c, pc, s, q, t, k)
  {
    hide Jumps, Reaches, CtxOk, FitsIn;
    FitsAt(c, g, q);
    JumpArrives(c, pc, s, l, t, k, q);
    DoLabel(c, q, t);
    ReachesTrans(c, pc, s, q, t, k, q + 1, t, 0);
  }

  /** A block whose normal end jumps to `end`. */
  lemma {:induction false} ArmSim(c: Ctx, g: Gen, b: Block, end: Label, st: Store, n: nat, s: State)
    returns (t: State, k: nat)
    requires !g.terminated && BlockDeclsOk(b) && Ready(c, g, JumpUnlessTerminated(GenBlock(g, b), end), st, s)
    ensures ArmEnds(c, g, end, GenBlock(g, b).terminated, ExecBlock(b, st, n), |g.body|, s, t, k)
    ensures ExecBlock(b, st, n).Cut? ==> k > n
    decreases n, b, 2
  {
    hide Holds, Still, Reaches, Jumps, Returns, ScopesOk, FitsIn;
    var g1 := GenBlock(g, b);
    var g2 := JumpUnlessTerminated(g1, end);
    PrefixFits(c, g1, g2);
    FitsCtx(c, g1);
    t, k := BlockSim(c, g, b, st, n, s);
    if ExecBlock(b, st, n).Normal? {
      FitsAt(c, g2, |g1.body|);
      DoJump(c, |g1.body|, t, end);
      JumpsTrans(c, |g.body|, s, |g1.body|, t, k, end, t, 1);
      k := k + 1;
    }
  }

  lemma ArmAfter(c: Ctx, g: Gen, end: Label, flag: bool, r: Result, pc: nat, s: State, pc1: nat, s1: State,
                 t: State, k1: nat, k2: nat)
    requires c.f < |c.p.functions| && Reaches(c, pc, s, pc1, s1, k1)
    requires ArmEnds(c, g, end, flag, r, pc1, s1, t, k2)
    ensures ArmEnds(c, g, end, flag, r, pc, s, t, k1 + k2)
  {
    hide Holds, Still, Reaches, Jumps, Returns, Escapes;
    if r.Normal? {
      JumpsTrans(c, pc, s, pc1, s1, k1, end, t, k2);
    }
    EscapesAfter(c, g, g.scopes, r, pc, s, pc1, s1, t, k1, k2);
  }

  /** The same outcome seen from a state with the same label stacks and scopes. */
  lemma ArmSame(c: Ctx, g: Gen, g1: Gen, end: Label, flag: bool, flag': bool, r: Result, pc: nat, s: State, t: State, k: nat)
    requires c.f < |c.p.functions| && ArmEnds(c, g1, end, flag, r, pc, s, t, k)
    requires g.breaks == g1.breaks && g.continues == g1.continues && g.scopes == g1.scopes && (flag' ==> flag)
    ensures ArmEnds(c, g, end, flag', r, pc, s, t, k)
  {
    hide Holds, Still, Reaches, Jumps, Returns;
  }

  /** A test, its branch block, and what the other side leads to. */
  lemma {:induction false} TestArmSim(c: Ctx, g: Gen, e: Expr, thenLabel: Label, elseLabel: Label, end: Label, b: Block,
                                      g1: Gen, st: Store, n: nat, s: State) returns (t: State, k: nat)
    requires |g.scopes| > 0 && BlockDeclsOk(b) && EvalExpr(e, st).Val?
    requires g1 == GenExpr(g, e).0.(nextLabel := g1.nextLabel) && g1.nextLabel >= g.nextLabel
    requires Ready(c, g, GenArm(g1, GenExpr(g, e).1, thenLabel, elseLabel, end, b), st, s)
    ensures var Val(v, st1) := EvalExpr(e, st);
      if v != 0 then
        ArmEnds(c, g, end, GenArm(g1, GenExpr(g, e).1, thenLabel, elseLabel, end, b).terminated,
                ExecBlock(b, st1, n), |g.body|, s, t, k)
      else Jumps(c, |g.body|, s, elseLabel, t, k) && Holds(c, st1, g.scopes, t.locals)
    ensures EvalExpr(e, st).v != 0 && ExecBlock(b, EvalExpr(e, st).st, n).Cut? ==> k > n
    decreases n, b, 3
  {
    hide Holds, Still, Reaches, Jumps, Returns, ScopesOk, FitsIn, Escapes;
    var r := GenExpr(g, e).1;
    var g2 := Emit(g1, Branch(r, thenLabel, elseLabel));
    var g3 := Emit(g2, LabelMark(thenLabel)).(terminated := false);
    var g' := GenArm(g1, r, thenLabel, elseLabel, end, b);
    var Val(v, st1) := EvalExpr(e, st);
    PrefixFits(c, g3, g');
    PrefixFits(c, g2, g3);
    PrefixFits(c, Emit(GenExpr(g, e).0, Branch(r, thenLabel, elseLabel)), g2);
    FitsCtx(c, g');
    t := TestSim(c, g, e, thenLabel, elseLabel, st, s);
    k := 1;
    if v != 0 {
      PassLabel(c, g3, |g2.body|, |g.body|, s, thenLabel, t, 1);
      var s1 := t;
      ScopesLater(g.scopes, g.nextLocal, g3.nextLocal);
      t, k := ArmSim(c, g3, b, end, st1, n, s1);
      ArmSame(c, g, g3, end, GenBlock(g3, b).terminated, g'.terminated, ExecBlock(b, st1, n), |g3.body|, s1, t, k);
      ArmAfter(c, g, end, g'.terminated, ExecBlock(b, st1, n), |g.body|, s, |g3.body|, s1, t, 1, k);
      k := 1 + k;
    }
  }

  lemma {:induction false} IfSim(c: Ctx, g: Gen, x: Stmt, st: Store, n: nat, s: State) returns (t: State, k: nat)
    requires x.IfStmt? && |g.scopes| > 0 && !g.terminated && DeclsOk(x) && Ready(c, g, GenIf(g, x), st, s)
    ensures Ends(c, g, GenIf(g, x), ExecStmt(x, st, n), s, t, k)
    ensures ExecStmt(x, st, n).Cut? ==> k > n
    decreases n, x, 0
  {
    hide Holds, Still, Reaches, Jumps, Returns, ScopesOk, FitsIn, Escapes, CtxOk, GenArm, GenElse, GenExpr, ExecBlock, ExecElse, EvalExpr, ArmEnds;
    t, k := s, 0;
    var els := x.els;
    var (g1, cond) := GenExpr(g, x.cond);
    var thenLabel := g1.nextLabel;
    var end := g1.nextLabel + 1;
    var elseLabel := if els.NoElse? then end else g1.nextLabel + 2;
    var g2 := g1.(nextLabel := if els.NoElse? then g1.nextLabel + 2 else g1.nextLabel + 3);
    var g3 := GenArm(g2, cond, thenLabel, elseLabel, end, x.thenBlock);
    var g3' := StartElse(g3, els);
    var (g4, all, default) := GenElse(g3', els, elseLabel, end);
    var g' := GenIf(g, x);
    FitsCtx(c, g');
    PrefixFits(c, g4, g');
    PrefixFits(c, g3, g4);
    var r := ExecStmt(x, st, n);
    if EvalExpr(x.cond, st).Val? {
      var Val(v, st1) := EvalExpr(x.cond, st);
      t, k := TestArmSim(c, g, x.cond, thenLabel, elseLabel, end, x.thenBlock, g2, st, n, s);
      if v != 0 {
        ArmSame(c, g, g, end, g3.terminated, g'.terminated, r, |g.body|, s, t, k);
      } else {
        var s1, k1 := t, k;
        ScopesLater(g.scopes, g.nextLocal, g3.nextLocal);
        t, k := ElseSim(c, g3', els, elseLabel, end, |g.body|, st1, n, s, s1, k1);
        ArmSame(c, g, g3', end, default && all, g'.terminated, r, |g.body|, s, t, k);
      }
      ArmToEnd(c, g, g4, g', end, r, s, t, k);
    } else {
      FailEscapes(c, g, |g.body|, s, t, k);
    }
  }

  /** Passing the end label of the statement. */
  lemma ArmToEnd(c: Ctx, g: Gen, g4: Gen, g': Gen, end: Label, r: Result, s: State, t: State, k: nat)
    requires FitsIn(c, g') && g'.body == g4.body + [LabelMark(end)] && g'.scopes == g.scopes
    requires c.f < |c.p.functions| && ArmEnds(c, g, end, g'.terminated, r, |g.body|, s, t, k)
    ensures Ends(c, g, g', r, s, t, k)
  {
    hide Holds, Still, Reaches, Jumps, Returns, Escapes, FitsIn;
    if r.Normal? {
      PassLabel(c, g', |g4.body|, |g.body|, s, end, t, k);
    }
  }

  /** The rest of an `if`, entered by a jump to its label. */
  lemma {:induction false} ElseSim(c: Ctx, g: Gen, els: Else, label_: Label, end: Label, pc: nat, st: Store, n: nat,
                                   s: State, s1: State, k1: nat) returns (t: State, k: nat)
    requires |g.scopes| > 0 && ElseDeclsOk(els) && FitsIn(c, GenElse(g, els, label_, end).0)
    requires !GenElse(g, els, label_, end).0.failed && ScopesOk(g.scopes, g.nextLocal)
    requires (els.NoElse? ==> label_ == end) && CtxOk(c) && c.f < |c.p.functions|
    requires Jumps(c, pc, s, label_, s1, k1) && Holds(c, st, g.scopes, s1.locals)
    ensures var (g', all, default) := GenElse(g, els, label_, end);
      ArmEnds(c, g, end, default && all, ExecElse(els, st, n), pc, s, t, k)
    ensures ExecElse(els, st, n).Cut? ==> k > n
    decreases n, els, 1
  {
    hide Holds, Still, Reaches, Jumps, Returns, ScopesOk, FitsIn, Escapes, CtxOk;
    match els
    case NoElse =>
      t, k := s1, k1;
      NormalEscapes(c, g, st, pc, s, t, k);
    case ElseIf(_, _, _) => t, k := ElseIfSim(c, g, els, label_, end, pc, st, n, s, s1, k1);
    case ElseBlock(b) =>
      var g0 := Emit(g, LabelMark(label_)).(terminated := false);
      var g1 := GenBlock(g0, b);
      var g2 := JumpUnlessTerminated(g1, end);
      PrefixFits(c, g0, g2);
      PassLabel(c, g0, |g.body|, pc, s, label_, s1, k1);
      t, k := ArmSim(c, g0, b, end, st, n, s1);
      ArmSame(c, g, g0, end, g1.terminated, g1.terminated, ExecBlock(b, st, n), |g0.body|, s1, t, k);
      ArmAfter(c, g, end, g1.terminated, ExecBlock(b, st, n), pc, s, |g0.body|, s1, t, k1, k);
      k := k1 + k;
  }

  lemma NormalEscapes(c: Ctx, g: Gen, st: Store, pc: nat, s: State, t: State, k: nat)
    requires c.f < |c.p.functions|
    ensures Escapes(c, g, g.scopes, Normal(st), pc, s, t, k)
  {
  }

  lemma {:induction false} ElseIfSim(c: Ctx, g: Gen, els: Else, label_: Label, end: Label, pc: nat, st: Store, n: nat,
                                     s: State, s1: State, k1: nat) returns (t: State, k: nat)
    requires els.ElseIf?
    requires |g.scopes| > 0 && ElseDeclsOk(els) && FitsIn(c, GenElse(g, els, label_, end).0)
    requires !GenElse(g, els, label_, end).0.failed && ScopesOk(g.scopes, g.nextLocal)
    requires CtxOk(c) && c.f < |c.p.functions|
    requires Jumps(c, pc, s, label_, s1, k1) && Holds(c, st, g.scopes, s1.locals)
    ensures var (g', all, default) := GenElse(g, els, label_, end);
      ArmEnds(c, g, end, default && all, ExecElse(els, st, n), pc, s, t, k)
    ensures ExecElse(els, st, n).Cut? ==> k > n
    decreases n, els, 0
  {
    hide Holds, Still, Reaches, Jumps, Returns, ScopesOk, FitsIn, Escapes, CtxOk, GenArm, GenExpr, ExecBlock, EvalExpr;
    var ElseIf(e, b, rest) := els;
    var g0 := Emit(g, LabelMark(label_));
    var (g1, cond) := GenExpr(g0, e);
    var thenLabel := g1.nextLabel;
    var next := if rest.NoElse? then end else g1.nextLabel + 1;
    var g2 := g1.(nextLabel := if rest.NoElse? then g1.nextLabel + 1 else g1.nextLabel + 2);
    var g3 := GenArm(g2, cond, thenLabel, next, end, b);
    var (g4, all, default) := GenElse(g3, rest, next, end);
    PrefixFits(c, g3, g4);
    PrefixFits(c, g0, g3);
    PassLabel(c, g0, |g.body|, pc, s, label_, s1, k1);
    t, k := s1, k1;
    if EvalExpr(e, st).Val? {
      var Val(v, st1) := EvalExpr(e, st);
      t, k := TestArmSim(c, g0, e, thenLabel, next, end, b, g2, st, n, s1);
      if v != 0 {
        ArmSame(c, g, g0, end, g3.terminated, default && (g3.terminated && all), ExecBlock(b, st1, n), |g0.body|, s1, t, k);
      } else {
        var s2, k2 := t, k;
        ScopesLater(g.scopes, g.nextLocal, g3.nextLocal);
        t, k := ElseSim(c, g3, rest, next, end, |g0.body|, st1, n, s1, s2, k2);
        ArmSame(c, g, g3, end, default && all, default && (g3.terminated && all), ExecElse(rest, st1, n), |g0.body|, s1, t, k);
      }
      ArmAfter(c, g, end, default && (g3.terminated && all), ExecElse(els, st, n), pc, s, |g0.body|, s1, t, k1, k);
      k := k1 + k;
    } else {
      FailEscapes(c, g, pc, s, t, k);
    }
  }

  lemma FailEscapes(c: Ctx, g: Gen, pc: nat, s: State, t: State, k: nat)
    requires c.f < |c.p.functions|
    ensures Escapes(c, g, g.scopes, Fail, pc, s, t, k)
  {
  }

  // --- loops ---

  /** The state in which the body of a loop has been generated. */
  function LoopBody(g: Gen, x: Stmt): Gen
    requires x.WhileStmt?
  {
    GenBlock(LoopHead(g, x.cond, x.forStep), x.body).(breaks := g.breaks, continues := g.continues)
  }

  /** The code of a loop fits, and its variables are the ones outside it. */
  ghost predicate LoopFits(c: Ctx, g: Gen, x: Stmt) {
    x.WhileStmt? && |g.scopes| > 0 && BlockDeclsOk(x.body) && ScopesOk(g.scopes, g.nextLocal)
    && FitsIn(c, GenWhile(g, x)) && !GenWhile(g, x).failed
  }

  /** After the body: at the step of a `for`, otherwise on the way to the condition. */
  ghost predicate TurnStart(c: Ctx, g: Gen, x: Stmt, st: Store, pc: nat, s: State, t: State, k: nat)
    requires x.WhileStmt? && c.f < |c.p.functions|
  {
    && Holds(c, st, g.scopes, t.locals)
    && if x.forStep.Some? then Reaches(c, pc, s, |LoopBody(g, x).body| + 1, t, k)
       else Jumps(c, pc, s, CondLabel(g), t, k)
  }

  /** What the body of the loop leads to. */
  ghost predicate BodyEnds(c: Ctx, g: Gen, x: Stmt, r: Result, pc: nat, s: State, t: State, k: nat)
    requires x.WhileStmt? && c.f < |c.p.functions|
  {
    && (r.Normal? || r.Continued? ==> TurnStart(c, g, x, r.st, pc, s, t, k))
    && (r.Broke? ==> Jumps(c, pc, s, EndLabel(g), t, k) && Holds(c, r.st, g.scopes, t.locals))
    && (r.Returned? ==> Returns(c, pc, s, r.v, k))
    && (r.Cut? ==> Still(c, pc, s, k))
  }

  /** The places of the code of a loop. */
  lemma LoopCode(c: Ctx, g: Gen, x: Stmt)
    requires LoopFits(c, g, x)
    ensures FitsIn(c, LoopBody(g, x)) && FitsIn(c, LoopHead(g, x.cond, x.forStep))
    ensures |LoopHead(g, x.cond, x.forStep).body| > 0
    ensures var h := LoopHead(g, x.cond, x.forStep); h.body[|h.body| - 1] == LabelMark(BodyLabel(g))
    ensures ScopesOk(g.scopes, LoopHead(g, x.cond, x.forStep).nextLocal) && !LoopBody(g, x).failed
  {
    hide CtxOk;
  }

  lemma {:induction false} BodySim(c: Ctx, g: Gen, x: Stmt, st: Store, n: nat, pc: nat, s: State, s1: State, k1: nat)
    returns (t: State, k: nat)
    requires LoopFits(c, g, x) && CtxOk(c)
    requires Jumps(c, pc, s, BodyLabel(g), s1, k1) && Holds(c, st, g.scopes, s1.locals)
    ensures BodyEnds(c, g, x, ExecBlock(x.body, st, n), pc, s, t, k)
    ensures k >= k1 && (ExecBlock(x.body, st, n).Cut? ==> k > k1 + n)
    decreases n, x.body, 2
  {
    hide Holds, Still, Reaches, Jumps, Returns, ScopesOk, FitsIn, CtxOk, LoopHead, LoopTail, TurnStart;
    LoopCode(c, g, x);
    var head := LoopHead(g, x.cond, x.forStep);
    PassLabel(c, head, |head.body| - 1, pc, s, BodyLabel(g), s1, k1);
    HeadLabels(g, x);
    PrefixFits(c, GenBlock(head, x.body), LoopBody(g, x));
    var r := ExecBlock(x.body, st, n);
    t, k := BlockSim(c, head, x.body, st, n, s1);
    match r {
      case Normal(_) =>
        ReachesTrans(c, pc, s, |head.body|, s1, k1, |LoopBody(g, x).body|, t, k);
        var k2 := TurnNormal(c, g, x, r.st, pc, s, t, k1 + k);
        k := k2;
      case Continued(_) =>
        JumpsTrans(c, pc, s, |head.body|, s1, k1, ContinueLabel(g, x.forStep), t, k);
        k := k1 + k;
        TurnContinued(c, g, x, r.st, pc, s, t, k);
      case Broke(_) =>
        JumpsTrans(c, pc, s, |head.body|, s1, k1, EndLabel(g), t, k);
        k := k1 + k;
      case Returned(v) =>
        ReturnsTrans(c, pc, s, |head.body|, s1, k1, v, k);
        k := k1 + k;
      case Cut =>
        StillTrans(c, pc, s, |head.body|, s1, k1, k);
        k := k1 + k;
      case Fail => k := k1 + k;
    }
  }

  lemma HeadLabels(g: Gen, x: Stmt)
    requires x.WhileStmt?
    ensures var h := LoopHead(g, x.cond, x.forStep);
      && !h.terminated && h.breaks != [] && Last(h.breaks) == EndLabel(g)
      && h.continues != [] && Last(h.continues) == ContinueLabel(g, x.forStep)
  {
  }

  /** The body ended normally: its code goes on to the step or jumps back. */
  lemma TurnNormal(c: Ctx, g: Gen, x: Stmt, st: Store, pc: nat, s: State, t: State, k: nat) returns (k': nat)
    requires LoopFits(c, g, x) && CtxOk(c) && !LoopBody(g, x).terminated
    requires Reaches(c, pc, s, |LoopBody(g, x).body|, t, k) && Holds(c, st, g.scopes, t.locals)
    ensures TurnStart(c, g, x, st, pc, s, t, k') && k' >= k
  {
    hide Holds, Reaches, Jumps, ScopesOk, FitsIn, CtxOk, LoopHead;
    var b := LoopBody(g, x);
    FitsAt(c, GenWhile(g, x), |b.body|);
    if x.forStep.Some? {
      DoLabel(c, |b.body|, t);
      ReachesTrans(c, pc, s, |b.body|, t, k, |b.body| + 1, t, 0);
      k' := k;
    } else {
      DoJump(c, |b.body|, t, CondLabel(g));
      JumpsTrans(c, pc, s, |b.body|, t, k, CondLabel(g), t, 1);
      k' := k + 1;
    }
  }

  lemma TurnStill(c: Ctx, g: Gen, x: Stmt, st: Store, pc: nat, s: State, t: State, k: nat)
    requires x.WhileStmt? && CtxOk(c) && TurnStart(c, g, x, st, pc, s, t, k)
    ensures Still(c, pc, s, k)
  {
    hide Holds, Still;
  }

  /** The body was left by `continue`. */
  lemma TurnContinued(c: Ctx, g: Gen, x: Stmt, st: Store, pc: nat, s: State, t: State, k: nat)
    requires LoopFits(c, g, x) && CtxOk(c)
    requires Jumps(c, pc, s, ContinueLabel(g, x.forStep), t, k) && Holds(c, st, g.scopes, t.locals)
    ensures TurnStart(c, g, x, st, pc, s, t, k)
  {
    hide Holds, Reaches, Jumps, ScopesOk, FitsIn, CtxOk, LoopHead;
    if x.forStep.Some? {
      PassLabel(c, GenWhile(g, x), |LoopBody(g, x).body|, pc, s, ContinueLabel(g, x.forStep), t, k);
    }
  }

  /** The step, and the jump back to the condition. */
  lemma StepSim(c: Ctx, g: Gen, x: Stmt, st: Store, pc: nat, s: State, s1: State, k1: nat) returns (t: State, k: nat)
    requires LoopFits(c, g, x) && CtxOk(c) && TurnStart(c, g, x, st, pc, s, s1, k1)
    requires x.forStep.Some? && EvalExpr(x.forStep.value, st).Val?
    ensures Jumps(c, pc, s, CondLabel(g), t, k) && k >= k1
    ensures Holds(c, EvalExpr(x.forStep.value, st).st, g.scopes, t.locals)
  {
    hide Holds, Reaches, Jumps, FitsIn, CtxOk, LoopHead, RegsKept;
    var e := x.forStep.value;
    var b := LoopBody(g, x);
    var g1 := Emit(b, LabelMark(ContinueLabel(g, x.forStep)));
    var g2 := GenExpr(g1, e).0;
    PrefixFits(c, g2, GenWhile(g, x));
    ScopesLater(g.scopes, g.nextLocal, g1.nextLocal);
    t := ExprSim(c, g1, e, st, s1);
    FitsAt(c, GenWhile(g, x), |g2.body|);
    DoJump(c, |g2.body|, t, CondLabel(g));
    JumpsTrans(c, |g1.body|, s1, |g2.body|, t, 0, CondLabel(g), t, 1);
    JumpsTrans(c, pc, s, |g1.body|, s1, k1, CondLabel(g), t, 1);
    k := k1 + 1;
  }

  /** Arriving at the condition: the test jumps to the body or to the end. */
  lemma CondSim(c: Ctx, g: Gen, x: Stmt, st: Store, pc: nat, s: State, s1: State, k1: nat) returns (t: State)
    requires LoopFits(c, g, x) && CtxOk(c) && EvalExpr(x.cond, st).Val?
    requires Jumps(c, pc, s, CondLabel(g), s1, k1) && Holds(c, st, g.scopes, s1.locals)
    ensures Jumps(c, pc, s, if EvalExpr(x.cond, st).v != 0 then BodyLabel(g) else EndLabel(g), t, k1 + 1)
    ensures Holds(c, EvalExpr(x.cond, st).st, g.scopes, t.locals)
  {
    hide Holds, Reaches, Jumps, ScopesOk, FitsIn, CtxOk, LoopTail;
    LoopCode(c, g, x);
    var e := LoopEntry(g, x.forStep);
    var g1 := Emit(e, LabelMark(CondLabel(g)));
    var g2 := Emit(GenExpr(g1, x.cond).0, Branch(GenExpr(g1, x.cond).1, BodyLabel(g), EndLabel(g)));
    PrefixFits(c, g2, LoopHead(g, x.cond, x.forStep));
    PrefixFits(c, g1, g2);
    ScopesLater(g.scopes, g.nextLocal, g1.nextLocal);
    PassLabel(c, g1, |e.body|, pc, s, CondLabel(g), s1, k1);
    t := TestSim(c, g1, x.cond, BodyLabel(g), EndLabel(g), st, s1);
    JumpsTrans(c, pc, s, |g1.body|, s1, k1, if EvalExpr(x.cond, st).v != 0 then BodyLabel(g) else EndLabel(g), t, 1);
  }

  lemma {:induction false} LoopSim(c: Ctx, g: Gen, x: Stmt, st: Store, n: nat, pc: nat, s: State, s1: State, k1: nat)
    returns (t: State, k: nat)
    requires x.WhileStmt? && LoopFits(c, g, x) && CtxOk(c)
    requires Jumps(c, pc, s, CondLabel(g), s1, k1) && Holds(c, st, g.scopes, s1.locals)
    ensures ArmEnds(c, g, EndLabel(g), false, ExecLoop(x.cond, x.body, x.forStep, st, n), pc, s, t, k)
    ensures ExecLoop(x.cond, x.body, x.forStep, st, n).Cut? ==> k > k1 + n
    decreases n, x.body, 3
  {
    hide Holds, Still, Reaches, Jumps, Returns, LoopFits, CtxOk, TurnStart;
    t, k := s1, k1;
    if EvalExpr(x.cond, st).Val? {
      var Val(v, st1) := EvalExpr(x.cond, st);
      t := CondSim(c, g, x, st, pc, s, s1, k1);
      k := k1 + 1;
      if v != 0 {
        t, k := BodySim(c, g, x, st1, n, pc, s, t, k);
        var r := ExecBlock(x.body, st1, n);
        if r.Normal? || r.Continued? {
          t, k := TurnSim(c, g, x, r.st, n, pc, s, t, k);
        }
      }
    }
  }

  /** The next turn of the loop. */
  lemma {:induction false} TurnSim(c: Ctx, g: Gen, x: Stmt, st: Store, n: nat, pc: nat, s: State, s1: State, k1: nat)
    returns (t: State, k: nat)
    requires x.WhileStmt? && LoopFits(c, g, x) && CtxOk(c) && TurnStart(c, g, x, st, pc, s, s1, k1)
    ensures ArmEnds(c, g, EndLabel(g), false, NextTurn(x.cond, x.body, x.forStep, st, n), pc, s, t, k)
    ensures NextTurn(x.cond, x.body, x.forStep, st, n).Cut? ==> k >= k1 + n
    decreases n, x.body, 0
  {
    hide Holds, Still, Reaches, Jumps, Returns, LoopFits, CtxOk;
    t, k := s1, k1;
    TurnStill(c, g, x, st, pc, s, s1, k1);
    if n > 0 {
      if x.forStep.None? {
        t, k := LoopSim(c, g, x, st, n - 1, pc, s, s1, k1);
      } else if EvalExpr(x.forStep.value, st).Val? {
        t, k := StepSim(c, g, x, st, pc, s, s1, k1);
        t, k := LoopSim(c, g, x, EvalExpr(x.forStep.value, st).st, n - 1, pc, s, t, k);
      }
    }
  }

  lemma {:induction false} WhileSim(c: Ctx, g: Gen, x: Stmt, st: Store, n: nat, s: State) returns (t: State, k: nat)
    requires x.WhileStmt? && |g.scopes| > 0 && !g.terminated && DeclsOk(x) && Ready(c, g, GenWhile(g, x), st, s)
    ensures Ends(c, g, GenWhile(g, x), ExecStmt(x, st, n), s, t, k)
    ensures ExecStmt(x, st, n).Cut? ==> k > n
    decreases n, x, 0
  {
    hide Holds, Still, Reaches, Jumps, Returns, ScopesOk, FitsIn, Escapes;
    var g' := GenWhile(g, x);
    var b := LoopBody(g, x);
    FitsCtx(c, g');
    EntryCode(c, g, x);
    DoJump(c, |g.body|, s, CondLabel(g));
    t, k := LoopSim(c, g, x, st, n, |g.body|, s, s, 1);
    var g4 := g'.(body := g'.body[..|g'.body| - 1]);
    ArmToEnd(c, g, g4, g', EndLabel(g), ExecStmt(x, st, n), s, t, k);
  }

  lemma EntryCode(c: Ctx, g: Gen, x: Stmt)
    requires x.WhileStmt? && FitsIn(c, GenWhile(g, x))
    ensures |g.body| < |Code(c)| && Code(c)[|g.body|] == Jump(CondLabel(g))
    ensures var b := GenWhile(g, x).body; |b| > 0 && b[|b| - 1] == LabelMark(EndLabel(g))
  {
    hide CtxOk;
    var e := LoopEntry(g, x.forStep);
    assert e.body <= LoopHead(g, x.cond, x.forStep).body;
    assert e.body[|g.body|] == Jump(CondLabel(g));
  }
}
