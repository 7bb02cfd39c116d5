/** Which source functions are accepted: a condition on the source alone. */
module LoweringAccepts {
  import opened Words
  import opened Ir
  import opened Ast
  import opened Lowering

  // --- the rules ---

  /** Every variable of the expression is visible. */
  predicate Known(e: Expr, names: set<string>) {
    match e
    case IntExpr(_) => true
    case BoolExpr(_) => true
    case VarExpr(x) => x in names
    case BinaryExpr(_, l, r, _) => Known(l, names) && Known(r, names)
    case NegExpr(a, _) => Known(a, names)
    case NotExpr(a, _) => Known(a, names)
    case AssignExpr(x, r) => x in names && Known(r, names)
  }

  predicate KnownIfAny(e: Option<Expr>, names: set<string>) {
    e.Some? ==> Known(e.value, names)
  }

  /** Control never gets behind the statement: it returns, breaks or continues, in
      an `if` with an `else` on every branch. */
  predicate Leaves(s: Stmt)
    decreases s, 0
  {
    match s
    case ReturnStmt(_) => true
    case BreakStmt => true
    case ContinueStmt => true
    case IfStmt(_, t, els) => BlockLeaves(t) && ElseLeaves(els)
    case BlockStmt(b) => BlockLeaves(b)
    case _ => false
  }

  predicate BlockLeaves(b: Block)
    decreases b, 1
  {
    b != [] && (Leaves(b[0]) || BlockLeaves(b[1..]))
  }

  predicate ElseLeaves(els: Else)
    decreases els, 0
  {
    match els
    case NoElse => false
    case ElseIf(_, t, rest) => BlockLeaves(t) && ElseLeaves(rest)
    case ElseBlock(b) => BlockLeaves(b)
  }

  /** The names visible behind a statement. */
  function Behind(s: Stmt, names: set<string>): set<string> {
    if s.VarDecl? then names + {s.name} else names
  }

  /** Only visible names are used; `break` and `continue` stand in loops. An
      initialiser sees the name it declares. */
  predicate Fine(s: Stmt, names: set<string>, inLoop: bool)
    decreases s, 0
  {
    match s
    case ExprStmt(e) => Known(e, names)
    case VarDecl(x, init) => KnownIfAny(init, names + {x})
    case ReturnStmt(r) => KnownIfAny(r, names)
    case BreakStmt => inLoop
    case ContinueStmt => inLoop
    case IfStmt(c, t, els) => Known(c, names) && BlockFine(t, names, inLoop) && ElseFine(els, names, inLoop)
    case WhileStmt(c, b, step) => Known(c, names) && BlockFine(b, names, true) && KnownIfAny(step, names)
    case BlockStmt(b) => BlockFine(b, names, inLoop)
  }

  /** What stands behind a statement that leaves the block is not looked at. */
  predicate BlockFine(b: Block, names: set<string>, inLoop: bool)
    decreases b, 1
  {
    b != [] ==> Fine(b[0], names, inLoop) && (Leaves(b[0]) || BlockFine(b[1..], Behind(b[0], names), inLoop))
  }

  predicate ElseFine(els: Else, names: set<string>, inLoop: bool)
    decreases els, 0
  {
    match els
    case NoElse => true
    case ElseIf(c, t, rest) => Known(c, names) && BlockFine(t, names, inLoop) && ElseFine(rest, names, inLoop)
    case ElseBlock(b) => BlockFine(b, names, inLoop)
  }

  /** The body is fine for the arguments, and leaves unless the function is void. */
  predicate FuncFine(f: Func) {
    BlockFine(f.body, set i | 0 <= i < |f.args| :: f.args[i], false) && (f.isVoid || BlockLeaves(f.body))
  }

  // --- the generator follows them ---

  /** The generator sees these names and stands in a loop or not. */
  ghost predicate At(g: Gen, names: set<string>, inLoop: bool) {
    && |g.scopes| > 0 && !g.failed
    && (forall x :: x in names <==> FindScope(g.scopes, x).Some?)
    && (g.breaks != [] <==> inLoop) && (g.continues != [] <==> inLoop)
  }

  lemma AtSame(g: Gen, g': Gen, names: set<string>, inLoop: bool)
    requires At(g, names, inLoop) && !g'.failed
    requires g'.scopes == g.scopes && g'.breaks == g.breaks && g'.continues == g.continues
    ensures At(g', names, inLoop)
  {
  }

  lemma {:induction false} ExprAccepted(g: Gen, e: Expr, names: set<string>, inLoop: bool)
    requires At(g, names, inLoop)
    ensures GenExpr(g, e).0.failed <==> !Known(e, names)
    ensures !GenExpr(g, e).0.failed ==> At(GenExpr(g, e).0, names, inLoop)
    decreases e
  {
    match e
    case BinaryExpr(_, l, r, _) =>
      ExprAccepted(g, l, names, inLoop);
      if !GenExpr(g, l).0.failed {
        ExprAccepted(GenExpr(g, l).0, r, names, inLoop);
      }
    case NegExpr(a, _) => ExprAccepted(g, a, names, inLoop);
    case NotExpr(a, _) => ExprAccepted(g, a, names, inLoop);
    case AssignExpr(_, r) => ExprAccepted(g, r, names, inLoop);
    case _ =>
  }

  lemma FindNew(scopes: seq<map<string, Local>>, x: string)
    ensures FindScope(scopes + [map[]], x) == FindScope(scopes, x)
  {
    assert (scopes + [map[]])[..|scopes|] == scopes;
  }

  lemma FindBound(g: Gen, x: string, y: string)
    requires |g.scopes| > 0
    ensures FindScope(BindLocal(g, x).scopes, y).Some? <==> y == x || FindScope(g.scopes, y).Some?
  {
    var top := |g.scopes| - 1;
    assert BindLocal(g, x).scopes[..top] == g.scopes[..top];
  }

  /** A block in a new scope; the generator goes on as if it had not terminated. */
  lemma OpenScope(g: Gen, names: set<string>, inLoop: bool)
    requires At(g, names, inLoop)
    ensures At(g.(terminated := false, scopes := g.scopes + [map[]]), names, inLoop)
  {
    forall x
      ensures FindScope(g.scopes + [map[]], x) == FindScope(g.scopes, x)
    {
      FindNew(g.scopes, x);
    }
  }

  lemma {:induction false} BlockAccepted(g: Gen, b: Block, names: set<string>, inLoop: bool)
    requires At(g, names, inLoop) && !g.terminated
    ensures GenBlock(g, b).failed <==> !BlockFine(b, names, inLoop)
    ensures !GenBlock(g, b).failed ==> At(GenBlock(g, b), names, inLoop) && (GenBlock(g, b).terminated <==> BlockLeaves(b))
    decreases b, 2
  {
    hide GenStmts, BlockFine, BlockLeaves, FindScope;
    var g1 := g.(terminated := false, scopes := g.scopes + [map[]]);
    OpenScope(g, names, inLoop);
    StmtsAccepted(g1, b, names, inLoop);
    assert GenStmts(g1, b).scopes[..|g.scopes|] == g.scopes;
  }

  lemma {:induction false} StmtsAccepted(g: Gen, b: Block, names: set<string>, inLoop: bool)
    requires At(g, names, inLoop) && !g.terminated
    ensures GenStmts(g, b).failed <==> !BlockFine(b, names, inLoop)
    ensures !GenStmts(g, b).failed ==> (GenStmts(g, b).terminated <==> BlockLeaves(b))
    decreases b, 1
  {
    assert !g.failed;
    hide GenStmt, Fine, Leaves, Behind, At;
    if b != [] {
      StmtAccepted(g, b[0], names, inLoop);
      var g1 := GenStmt(g, b[0]);
      if g1.failed {
        StaysFailed(g1, b[1..]);
      } else if g1.terminated {
        assert GenStmts(g1, b[1..]) == g1;
      } else {
        StmtsAccepted(g1, b[1..], Behind(b[0], names), inLoop);
      }
    }
  }

  lemma StaysFailed(g: Gen, b: Block)
    requires |g.scopes| > 0 && g.failed
    ensures GenStmts(g, b).failed
  {
    hide GenStmt;
  }

  lemma {:induction false} StmtAccepted(g: Gen, s: Stmt, names: set<string>, inLoop: bool)
    requires At(g, names, inLoop) && !g.terminated
    ensures |GenStmt(g, s).scopes| > 0
    ensures GenStmt(g, s).failed <==> !Fine(s, names, inLoop)
    ensures !GenStmt(g, s).failed ==>
              At(GenStmt(g, s), Behind(s, names), inLoop) && (GenStmt(g, s).terminated <==> Leaves(s))
    decreases s, 1
  {
    hide GenExpr, GenIf, GenWhile, GenBlock, FindScope, Known, BlockFine, BlockLeaves, ElseFine, ElseLeaves;
    match s
    case ExprStmt(e) => ExprAccepted(g, e, names, inLoop);
    case VarDecl(x, init) => DeclAccepted(g, s, names, inLoop);
    case ReturnStmt(r) =>
      if r.Some? {
        ExprAccepted(g, r.value, names, inLoop);
      }
    case IfStmt(_, _, _) => IfAccepted(g, s, names, inLoop);
    case WhileStmt(_, _, _) => WhileAccepted(g, s, names, inLoop);
    case BlockStmt(b) => BlockAccepted(g, b, names, inLoop);
    case _ =>
  }

  lemma DeclAccepted(g: Gen, s: Stmt, names: set<string>, inLoop: bool)
    requires s.VarDecl? && At(g, names, inLoop) && !g.terminated
    ensures GenStmt(g, s).failed <==> !Fine(s, names, inLoop)
    ensures !GenStmt(g, s).failed ==> At(GenStmt(g, s), Behind(s, names), inLoop) && !GenStmt(g, s).terminated
  {
    hide GenExpr, FindScope, Known;
    var g1 := BindLocal(g, s.name);
    forall y
      ensures FindScope(g1.scopes, y).Some? <==> y == s.name || FindScope(g.scopes, y).Some?
    {
      FindBound(g, s.name, y);
    }
    assert At(g1, names + {s.name}, inLoop);
    if s.init.Some? {
      ExprAccepted(g1, s.init.value, names + {s.name}, inLoop);
    }
  }

  /** One branch of an `if`. */
  lemma {:induction false} ArmAccepted(g: Gen, cond: Reg, thenLabel: Label, elseLabel: Label, end: Label, t: Block,
                                       names: set<string>, inLoop: bool)
    requires At(g, names, inLoop)
    ensures GenArm(g, cond, thenLabel, elseLabel, end, t).failed <==> !BlockFine(t, names, inLoop)
    ensures !GenArm(g, cond, thenLabel, elseLabel, end, t).failed ==>
              At(GenArm(g, cond, thenLabel, elseLabel, end, t), names, inLoop)
              && (GenArm(g, cond, thenLabel, elseLabel, end, t).terminated <==> BlockLeaves(t))
    decreases t, 3
  {
    hide GenBlock, BlockFine, BlockLeaves, FindScope;
    var g1 := Emit(Emit(g, Branch(cond, thenLabel, elseLabel)), LabelMark(thenLabel)).(terminated := false);
    BlockAccepted(g1, t, names, inLoop);
  }

  lemma {:induction false} ElseAccepted(g: Gen, els: Else, label_: Label, end: Label, names: set<string>, inLoop: bool)
    requires At(g, names, inLoop)
    ensures GenElse(g, els, label_, end).0.failed <==> !ElseFine(els, names, inLoop)
    ensures !GenElse(g, els, label_, end).0.failed ==>
              At(GenElse(g, els, label_, end).0, names, inLoop)
              && (GenElse(g, els, label_, end).1 && GenElse(g, els, label_, end).2 <==> ElseLeaves(els))
    decreases els, 5
  {
    hide GenBlock, GenExpr, GenArm, BlockFine, BlockLeaves, FindScope, Known;
    var g0 := Emit(g, LabelMark(label_));
    match els
    case NoElse =>
    case ElseIf(c, t, rest) =>
      ExprAccepted(g0, c, names, inLoop);
      var (g1, cond) := GenExpr(g0, c);
      var thenLabel := g1.nextLabel;
      var next := if rest.NoElse? then end else g1.nextLabel + 1;
      var g2 := g1.(nextLabel := if rest.NoElse? then g1.nextLabel + 1 else g1.nextLabel + 2);
      var g3 := GenArm(g2, cond, thenLabel, next, end, t);
      if !g2.failed {
        ArmAccepted(g2, cond, thenLabel, next, end, t, names, inLoop);
        if !g3.failed {
          ElseAccepted(g3, rest, next, end, names, inLoop);
        }
      }
    case ElseBlock(b) => BlockAccepted(g0.(terminated := false), b, names, inLoop);
  }

  lemma {:induction false} IfAccepted(g: Gen, s: Stmt, names: set<string>, inLoop: bool)
    requires s.IfStmt? && At(g, names, inLoop)
    ensures GenIf(g, s).failed <==> !Fine(s, names, inLoop)
    ensures !GenIf(g, s).failed ==> At(GenIf(g, s), names, inLoop) && (GenIf(g, s).terminated <==> Leaves(s))
    decreases s, 0
  {
    hide GenExpr, GenArm, GenElse, BlockFine, BlockLeaves, ElseFine, ElseLeaves, FindScope, Known;
    var els := s.els;
    ExprAccepted(g, s.cond, names, inLoop);
    var (g1, cond) := GenExpr(g, s.cond);
    var thenLabel := g1.nextLabel;
    var end := g1.nextLabel + 1;
    var elseLabel := if els.NoElse? then end else g1.nextLabel + 2;
    var g2 := g1.(nextLabel := if els.NoElse? then g1.nextLabel + 2 else g1.nextLabel + 3);
    var g3 := GenArm(g2, cond, thenLabel, elseLabel, end, s.thenBlock);
    if !g2.failed {
      ArmAccepted(g2, cond, thenLabel, elseLabel, end, s.thenBlock, names, inLoop);
      if !g3.failed {
        ElseAccepted(StartElse(g3, els), els, elseLabel, end, names, inLoop);
      }
    }
  }

  lemma {:induction false} WhileAccepted(g: Gen, s: Stmt, names: set<string>, inLoop: bool)
    requires s.WhileStmt? && At(g, names, inLoop)
    ensures GenWhile(g, s).failed <==> !Fine(s, names, inLoop)
    ensures !GenWhile(g, s).failed ==> At(GenWhile(g, s), names, inLoop) && !GenWhile(g, s).terminated
    decreases s, 0
  {
    hide GenExpr, GenBlock, BlockFine, BlockLeaves, FindScope, Known;
    var entry := Emit(LoopEntry(g, s.forStep), LabelMark(CondLabel(g)));
    ExprAccepted(entry, s.cond, names, inLoop);
    var head := LoopHead(g, s.cond, s.forStep);
    if !head.failed {
      HeadAt(g, s, names, inLoop);
      BlockAccepted(head, s.body, names, true);
      var body := GenBlock(head, s.body).(breaks := g.breaks, continues := g.continues);
      if !body.failed {
        AtSame(g, body, names, inLoop);
        if s.forStep.Some? {
          ExprAccepted(Emit(body, LabelMark(ContinueLabel(g, s.forStep))), s.forStep.value, names, inLoop);
        }
      }
    }
  }

  lemma HeadAt(g: Gen, s: Stmt, names: set<string>, inLoop: bool)
    requires s.WhileStmt? && At(g, names, inLoop) && !LoopHead(g, s.cond, s.forStep).failed
    ensures At(LoopHead(g, s.cond, s.forStep), names, true) && !LoopHead(g, s.cond, s.forStep).terminated
  {
    hide GenExpr, FindScope;
  }

  // --- functions ---

  lemma {:induction false} ArgNames(args: seq<string>, from: nat, acc: map<string, Local>, x: string)
    requires from <= |args|
    ensures x in ArgScope(args, from, acc) <==> x in acc || x in args[from..]
    decreases |args| - from
  {
    if from < |args| {
      ArgNames(args, from + 1, acc[args[from] := from], x);
      assert args[from..] == [args[from]] + args[from + 1..];
    }
  }

  lemma FindInOne(scope: map<string, Local>)
    ensures forall x :: FindScope([scope], x).Some? <==> x in scope
  {
  }

  lemma StartAt(f: Func, firstLabel: nat)
    ensures At(StartFunc(f, firstLabel), set i | 0 <= i < |f.args| :: f.args[i], false)
    ensures !StartFunc(f, firstLabel).terminated
  {
    var scope := ArgScope(f.args, 0, map[]);
    forall x
      ensures x in scope <==> x in f.args
    {
      ArgNames(f.args, 0, map[], x);
    }
    hide ArgScope;
    FindInOne(scope);
  }

  /** A function is accepted exactly if it keeps the rules. */
  lemma FuncAccepted(f: Func, firstLabel: nat)
    ensures !GenFunc(f, firstLabel).failed <==> FuncFine(f)
  {
    hide GenBlock, BlockFine, BlockLeaves, StartFunc, At;
    StartAt(f, firstLabel);
    BlockAccepted(StartFunc(f, firstLabel), f.body, set i | 0 <= i < |f.args| :: f.args[i], false);
  }

  predicate AllFine(fs: seq<Func>) {
    forall k :: 0 <= k < |fs| ==> FuncFine(fs[k])
  }
}
