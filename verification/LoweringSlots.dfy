/** Lowered code stays within the fragment the back end selects, and its locals
    are numbered below the local count. */
module LoweringSlots {
  import opened Words
  import opened Ir
  import opened Ast
  import opened Lowering
  import opened X86Select

  // --- sources with integer operators, ordered only by signed kinds ---

  predicate ExprFits(e: Expr) {
    match e
    case BinaryExpr(op, l, r, k) =>
      IsScalarIntKind(k) && (Ordering(op) ==> IsSignedIntKind(k)) && ExprFits(l) && ExprFits(r)
    case NegExpr(x, k) => IsScalarIntKind(k) && ExprFits(x)
    case NotExpr(x, k) => IsScalarIntKind(k) && ExprFits(x)
    case AssignExpr(_, r) => ExprFits(r)
    case _ => true
  }

  predicate OptFits(e: Option<Expr>) {
    e.Some? ==> ExprFits(e.value)
  }

  predicate StmtFits(s: Stmt)
    decreases s, 1
  {
    match s
    case ExprStmt(e) => ExprFits(e)
    case VarDecl(_, init) => OptFits(init)
    case ReturnStmt(r) => OptFits(r)
    case IfStmt(c, t, els) => ExprFits(c) && BlockFits(t) && ElseFits(els)
    case WhileStmt(c, b, step) => ExprFits(c) && BlockFits(b) && OptFits(step)
    case BlockStmt(b) => BlockFits(b)
    case _ => true
  }

  predicate ElseFits(els: Else)
    decreases els, 1
  {
    match els
    case NoElse => true
    case ElseIf(c, t, rest) => ExprFits(c) && BlockFits(t) && ElseFits(rest)
    case ElseBlock(b) => BlockFits(b)
  }

  predicate BlockFits(b: Block)
    decreases b, 0
  {
    b == [] || (StmtFits(b[0]) && BlockFits(b[1..]))
  }

  // --- the code ---

  predicate InstSlotted(inst: Inst, n: nat) {
    && Selectable(inst)
    && (inst.LoadLocal? ==> inst.local < n)
    && (inst.StoreLocal? ==> inst.local < n)
  }

  predicate BodySlotted(body: seq<Inst>, n: nat) {
    forall i :: 0 <= i < |body| ==> InstSlotted(body[i], n)
  }

  predicate ScopeBelow(scope: map<string, Local>, n: nat) {
    forall x :: x in scope ==> scope[x] < n
  }

  predicate ScopesBelow(scopes: seq<map<string, Local>>, n: nat) {
    forall i :: 0 <= i < |scopes| ==> ScopeBelow(scopes[i], n)
  }

  predicate Slotted(g: Gen) {
    BodySlotted(g.body, g.nextLocal) && ScopesBelow(g.scopes, g.nextLocal)
  }

  lemma EmitSlotted(g: Gen, inst: Inst)
    requires Slotted(g) && InstSlotted(inst, g.nextLocal)
    ensures Slotted(Emit(g, inst))
  {
    hide InstSlotted, ScopesBelow;
  }

  /** Only the code and the names matter. */
  lemma SameSlotted(g: Gen, g1: Gen)
    requires Slotted(g) && g1.body == g.body && g1.scopes == g.scopes && g1.nextLocal == g.nextLocal
    ensures Slotted(g1)
  {
  }

  lemma ResolveBelow(g: Gen, x: string)
    requires Slotted(g) && Resolve(g, x).Some?
    ensures Resolve(g, x).value < g.nextLocal
  {
    hide BodySlotted;
    var i := FindScope(g.scopes, x).value;
    assert ScopeBelow(g.scopes[i], g.nextLocal);
  }

  lemma {:induction false} ExprSlots(g: Gen, e: Expr)
    requires Slotted(g) && ExprFits(e)
    ensures Slotted(GenExpr(g, e).0)
    decreases e
  {
    hide Slotted, Resolve;
    match e
    case IntExpr(i) => LeafSlots(g, LoadConst(g.nextReg, i));
    case BoolExpr(b) => LeafSlots(g, LoadConst(g.nextReg, if b then 1 else 0));
    case VarExpr(x) =>
      if Resolve(g, x).Some? {
        ResolveBelow(g, x);
        LeafSlots(g, LoadLocal(g.nextReg, Resolve(g, x).value));
      } else {
        SameSlotted(g, Error(g));
      }
    case BinaryExpr(op, l, r, k) =>
      var (g1, a) := GenExpr(g, l);
      ExprSlots(g, l);
      ExprSlots(g1, r);
      var (g2, b) := GenExpr(g1, r);
      LeafSlots(g2, Binary(op, g2.nextReg, a, b, k));
    case NegExpr(x, k) =>
      ExprSlots(g, x);
      var (g1, a) := GenExpr(g, x);
      ZeroSlots(g1, Binary(Sub, g1.nextReg, g1.nextReg + 1, a, k));
    case NotExpr(x, k) =>
      ExprSlots(g, x);
      var (g1, a) := GenExpr(g, x);
      ZeroSlots(g1, Binary(Eq, g1.nextReg, a, g1.nextReg + 1, k));
    case AssignExpr(x, r) =>
      if Resolve(g, x).Some? {
        ExprSlots(g, r);
        ResolveBelow(g, x);
        EmitSlotted(GenExpr(g, r).0, StoreLocal(Resolve(g, x).value, GenExpr(g, r).1));
      } else {
        SameSlotted(g, Error(g));
      }
  }

  lemma LeafSlots(g: Gen, inst: Inst)
    requires Slotted(g) && InstSlotted(inst, g.nextLocal)
    ensures Slotted(Emit(g.(nextReg := g.nextReg + 1), inst))
  {
    hide Slotted, InstSlotted;
    SameSlotted(g, g.(nextReg := g.nextReg + 1));
    EmitSlotted(g.(nextReg := g.nextReg + 1), inst);
  }

  lemma ZeroSlots(g: Gen, inst: Inst)
    requires Slotted(g) && InstSlotted(inst, g.nextLocal)
    ensures Slotted(WithZero(g, inst).0)
  {
    hide Slotted;
    var g1 := g.(nextReg := g.nextReg + 2);
    SameSlotted(g, g1);
    EmitSlotted(g1, LoadConst(g.nextReg + 1, 0));
    EmitSlotted(Emit(g1, LoadConst(g.nextReg + 1, 0)), inst);
  }

  lemma BindSlots(g: Gen, x: string)
    requires Slotted(g) && |g.scopes| > 0
    ensures Slotted(BindLocal(g, x))
  {
    var g1 := BindLocal(g, x);
    forall i | 0 <= i < |g1.body|
      ensures InstSlotted(g1.body[i], g1.nextLocal)
    {
      assert InstSlotted(g.body[i], g.nextLocal);
    }
    forall i | 0 <= i < |g1.scopes|
      ensures ScopeBelow(g1.scopes[i], g1.nextLocal)
    {
      assert ScopeBelow(g.scopes[i], g.nextLocal);
    }
  }

  lemma {:induction false} StmtSlots(g: Gen, s: Stmt)
    requires Slotted(g) && |g.scopes| > 0 && StmtFits(s)
    ensures Slotted(GenStmt(g, s))
    decreases s, 1
  {
    hide Slotted, ExprFits;
    if !g.terminated {
      match s
      case ExprStmt(e) => ExprSlots(g, e);
      case VarDecl(x, init) =>
        BindSlots(g, x);
        if init.Some? {
          ExprSlots(BindLocal(g, x), init.value);
          var (g2, v) := GenExpr(BindLocal(g, x), init.value);
          EmitSlotted(g2, StoreLocal(g.nextLocal, v));
        }
      case ReturnStmt(r) => ReturnSlots(g, r);
      case BreakStmt => JumpSlots(g, g.breaks);
      case ContinueStmt => JumpSlots(g, g.continues);
      case IfStmt(_, _, _) => IfSlots(g, s);
      case WhileStmt(_, _, _) => WhileSlots(g, s);
      case BlockStmt(b) => BlockSlots(g, b);
    }
  }

  lemma ReturnSlots(g: Gen, result: Option<Expr>)
    requires Slotted(g) && OptFits(result)
    ensures Slotted(GenReturn(g, result))
  {
    hide Slotted, ExprFits;
    if result.Some? {
      ExprSlots(g, result.value);
      EmitSlotted(GenExpr(g, result.value).0, Return(GenExpr(g, result.value).1));
      SameSlotted(Emit(GenExpr(g, result.value).0, Return(GenExpr(g, result.value).1)), GenReturn(g, result));
    } else {
      LeafSlots(g, LoadConst(g.nextReg, 0));
      var g1 := Emit(g.(nextReg := g.nextReg + 1), LoadConst(g.nextReg, 0));
      EmitSlotted(g1, Return(g.nextReg));
      SameSlotted(Emit(g1, Return(g.nextReg)), GenReturn(g, result));
    }
  }

  lemma JumpSlots(g: Gen, labels: seq<Label>)
    requires Slotted(g)
    ensures Slotted(GenJump(g, labels))
  {
    hide Slotted;
    if labels == [] {
      SameSlotted(g, Error(g));
    } else {
      EmitSlotted(g, Jump(labels[|labels| - 1]));
      SameSlotted(Emit(g, Jump(labels[|labels| - 1])), GenJump(g, labels));
    }
  }

  lemma UnlessSlots(g: Gen, l: Label)
    requires Slotted(g)
    ensures Slotted(JumpUnlessTerminated(g, l))
  {
    hide Slotted;
    if !g.terminated {
      EmitSlotted(g, Jump(l));
    }
  }

  lemma {:induction false} BlockSlots(g: Gen, b: Block)
    requires Slotted(g) && BlockFits(b)
    ensures Slotted(GenBlock(g, b))
    decreases b, 2
  {
    var g1 := g.(terminated := false, scopes := g.scopes + [map[]]);
    StmtsSlots(g1, b);
    Popped(GenStmts(g1, b), GenBlock(g, b), |g.scopes|);
  }

  lemma Popped(g: Gen, g1: Gen, n: nat)
    requires Slotted(g) && n <= |g.scopes| && g1.body == g.body && g1.nextLocal == g.nextLocal && g1.scopes == g.scopes[..n]
    ensures Slotted(g1)
  {
  }

  lemma {:induction false} StmtsSlots(g: Gen, b: Block)
    requires Slotted(g) && |g.scopes| > 0 && BlockFits(b)
    ensures Slotted(GenStmts(g, b))
    decreases b, 0
  {
    hide Slotted, StmtFits;
    if b != [] && !g.terminated {
      StmtSlots(g, b[0]);
      StmtsSlots(GenStmt(g, b[0]), b[1..]);
    }
  }

  lemma {:induction false} ArmSlots(g: Gen, cond: Reg, thenLabel: Label, elseLabel: Label, end: Label, t: Block)
    requires Slotted(g) && BlockFits(t)
    ensures Slotted(GenArm(g, cond, thenLabel, elseLabel, end, t))
    decreases t, 3
  {
    hide Slotted, BlockFits;
    EmitSlotted(g, Branch(cond, thenLabel, elseLabel));
    var g1 := Emit(g, Branch(cond, thenLabel, elseLabel));
    EmitSlotted(g1, LabelMark(thenLabel));
    var g2 := Emit(g1, LabelMark(thenLabel)).(terminated := false);
    SameSlotted(Emit(g1, LabelMark(thenLabel)), g2);
    BlockSlots(g2, t);
    UnlessSlots(GenBlock(g2, t), end);
  }

  lemma {:induction false} IfSlots(g: Gen, s: Stmt)
    requires s.IfStmt? && Slotted(g) && StmtFits(s)
    ensures Slotted(GenIf(g, s))
    decreases s, 0
  {
    hide Slotted, ExprFits, BlockFits, ElseFits, GenArm, GenElse;
    var els := s.els;
    var (g1, cond) := GenExpr(g, s.cond);
    var thenLabel := g1.nextLabel;
    var end := g1.nextLabel + 1;
    var elseLabel := if els.NoElse? then end else g1.nextLabel + 2;
    var g2 := g1.(nextLabel := if els.NoElse? then g1.nextLabel + 2 else g1.nextLabel + 3);
    var g3 := GenArm(g2, cond, thenLabel, elseLabel, end, s.thenBlock);
    var g3' := StartElse(g3, els);
    var g4 := GenElse(g3', els, elseLabel, end).0;
    ExprSlots(g, s.cond);
    SameSlotted(g1, g2);
    ArmSlots(g2, cond, thenLabel, elseLabel, end, s.thenBlock);
    SameSlotted(g3, g3');
    ElseSlots(g3', els, elseLabel, end);
    EmitSlotted(g4, LabelMark(end));
    SameSlotted(Emit(g4, LabelMark(end)), GenIf(g, s));
  }

  lemma {:induction false} ElseSlots(g: Gen, els: Else, label_: Label, end: Label)
    requires Slotted(g) && ElseFits(els)
    ensures Slotted(GenElse(g, els, label_, end).0)
    decreases els, 4
  {
    hide Slotted, ExprFits, BlockFits;
    var g0 := Emit(g, LabelMark(label_));
    EmitSlotted(g, LabelMark(label_));
    match els
    case NoElse =>
    case ElseIf(_, _, _) => ElseIfSlots(g0, els, end);
    case ElseBlock(b) =>
      SameSlotted(g0, g0.(terminated := false));
      BlockSlots(g0.(terminated := false), b);
      UnlessSlots(GenBlock(g0.(terminated := false), b), end);
  }

  lemma {:induction false} ElseIfSlots(g: Gen, els: Else, end: Label)
    requires els.ElseIf? && Slotted(g) && ElseFits(els)
    ensures Slotted(ElseAfterLabel(g, els, end).0)
    decreases els, 0
  {
    hide Slotted, ExprFits, BlockFits, GenArm, GenElse;
    var (g1, cond) := GenExpr(g, els.cond);
    var next := if els.rest.NoElse? then end else g1.nextLabel + 1;
    var g2 := g1.(nextLabel := if els.rest.NoElse? then g1.nextLabel + 1 else g1.nextLabel + 2);
    ExprSlots(g, els.cond);
    SameSlotted(g1, g2);
    ArmSlots(g2, cond, g1.nextLabel, next, end, els.thenBlock);
    ElseSlots(GenArm(g2, cond, g1.nextLabel, next, end, els.thenBlock), els.rest, next, end);
  }

  lemma {:induction false} WhileSlots(g: Gen, s: Stmt)
    requires s.WhileStmt? && Slotted(g) && StmtFits(s)
    ensures Slotted(GenWhile(g, s))
    decreases s, 0
  {
    hide Slotted, ExprFits, BlockFits, LoopHead, LoopTail;
    var head := LoopHead(g, s.cond, s.forStep);
    var body := GenBlock(head, s.body);
    var b := body.(breaks := g.breaks, continues := g.continues);
    HeadSlots(g, s.cond, s.forStep);
    BlockSlots(head, s.body);
    SameSlotted(body, b);
    TailSlots(b, s.forStep, CondLabel(g), ContinueLabel(g, s.forStep), EndLabel(g));
  }

  lemma HeadSlots(g: Gen, c: Expr, step: Option<Expr>)
    requires Slotted(g) && ExprFits(c)
    ensures Slotted(LoopHead(g, c, step))
  {
    hide Slotted, ExprFits;
    var g0 := g.(nextLabel := if step.Some? then g.nextLabel + 4 else g.nextLabel + 3);
    SameSlotted(g, g0);
    EmitSlotted(g0, Jump(CondLabel(g)));
    EmitSlotted(LoopEntry(g, step), LabelMark(CondLabel(g)));
    var g1 := Emit(LoopEntry(g, step), LabelMark(CondLabel(g)));
    ExprSlots(g1, c);
    var (g2, cond) := GenExpr(g1, c);
    EmitSlotted(g2, Branch(cond, BodyLabel(g), EndLabel(g)));
    var g3 := Emit(g2, Branch(cond, BodyLabel(g), EndLabel(g)));
    EmitSlotted(g3, LabelMark(BodyLabel(g)));
    SameSlotted(Emit(g3, LabelMark(BodyLabel(g))), LoopHead(g, c, step));
  }

  lemma TailSlots(g: Gen, step: Option<Expr>, cond: Label, cont: Label, end: Label)
    requires Slotted(g) && OptFits(step)
    ensures Slotted(LoopTail(g, step, cond, cont, end))
  {
    hide Slotted, ExprFits;
    var g1 := g;
    if step.Some? {
      EmitSlotted(g, LabelMark(cont));
      ExprSlots(Emit(g, LabelMark(cont)), step.value);
      g1 := GenExpr(Emit(g, LabelMark(cont)), step.value).0.(terminated := false);
      SameSlotted(GenExpr(Emit(g, LabelMark(cont)), step.value).0, g1);
    }
    UnlessSlots(g1, cond);
    var g2 := JumpUnlessTerminated(g1, cond);
    EmitSlotted(g2, LabelMark(end));
    SameSlotted(Emit(g2, LabelMark(end)), LoopTail(g, step, cond, cont, end));
  }

  lemma {:induction false} ArgScopeBelow(names: seq<string>, from: nat, acc: map<string, Local>)
    requires from <= |names| && ScopeBelow(acc, |names|)
    ensures ScopeBelow(ArgScope(names, from, acc), |names|)
    decreases |names| - from
  {
    if from < |names| {
      ArgScopeBelow(names, from + 1, acc[names[from] := from]);
    }
  }

  /** Every instruction of a lowered function can be selected and has its local
      below the local count. */
  lemma FuncSlots(f: Func, firstLabel: nat)
    requires BlockFits(f.body)
    ensures BodySlotted(GenFunc(f, firstLabel).body, GenFunc(f, firstLabel).nextLocal)
    ensures |f.args| <= GenFunc(f, firstLabel).nextLocal
  {
    hide BlockFits, GenStmts;
    var g0 := StartFunc(f, firstLabel);
    ArgScopeBelow(f.args, 0, map[]);
    assert Slotted(g0);
    BlockSlots(g0, f.body);
    var g := GenBlock(g0, f.body);
    ReturnSlots(g, None);
  }
}
