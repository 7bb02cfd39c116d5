/** The IR generator: counters, the terminated flag, the label stacks, the
    scopes and the body it appends to. */
module IrGenerator {
  import opened Words
  import opened Ir
  import opened IrObjects
  import opened Ast
  import opened Lowering
  import opened LoweringEntry

  class Generator {
    var body: seq<Inst>
    var nextReg: nat
    var nextLocal: nat
    var nextLabel: nat
    var currentTerminated: bool
    var breakLabels: seq<Label>
    var continueLabels: seq<Label>
    var localScopes: seq<map<string, Local>>
    var failed: bool

    constructor ()
      ensures View() == Gen([], 0, 0, 0, false, [], [], [], false)
    {
      body, nextReg, nextLocal, nextLabel := [], 0, 0, 0;
      currentTerminated := false;
      breakLabels, continueLabels := [], [];
      localScopes := [];
      failed := false;
    }

    function View(): Gen
      reads this
    {
      Gen(body, nextReg, nextLocal, nextLabel, currentTerminated, breakLabels, continueLabels, localScopes, failed)
    }

    method NewReg() returns (r: Reg)
      modifies this`nextReg
      ensures r == old(nextReg) && nextReg == r + 1
    {
      r := nextReg;
      nextReg := nextReg + 1;
    }

    method NewLabel() returns (l: Label)
      modifies this`nextLabel
      ensures l == old(nextLabel) && nextLabel == l + 1
    {
      l := nextLabel;
      nextLabel := nextLabel + 1;
    }

    method NewLocal() returns (l: Local)
      modifies this`nextLocal
      ensures l == old(nextLocal) && nextLocal == l + 1
    {
      l := nextLocal;
      nextLocal := nextLocal + 1;
    }

    method Append(inst: Inst)
      modifies this`body
      ensures body == old(body) + [inst]
    {
      body := body + [inst];
    }

    method AddError()
      modifies this`failed
      ensures failed
    {
      failed := true;
    }

    /** The innermost scope that has the name. */
    method Lookup(name: string) returns (local: Option<Local>)
      ensures local == Resolve(View(), name)
    {
      local := None;
      var i := |localScopes|;
      while i > 0
        invariant 0 <= i <= |localScopes|
        invariant FindScope(localScopes, name) == FindScope(localScopes[..i], name)
      {
        i := i - 1;
        assert localScopes[..i + 1][..i] == localScopes[..i];
        if name in localScopes[i] {
          return Some(localScopes[i][name]);
        }
      }
    }

    /** A register for the result of a unary operation, and a zero in the next one. */
    method GenerateZero() returns (r: Reg)
      modifies this`nextReg, this`body
      ensures r == old(nextReg) && nextReg == r + 2 && body == old(body) + [LoadConst(r + 1, 0)]
    {
      r := NewReg();
      var zero := NewReg();
      Append(LoadConst(zero, 0));
    }

    method GenerateExpr(e: Expr) returns (r: Reg)
      modifies this
      ensures (View(), r) == GenExpr(old(View()), e)
      decreases e
    {
      hide Resolve, ExprGrows;
      match e {
        case IntExpr(i) =>
          r := NewReg();
          Append(LoadConst(r, i));
        case BoolExpr(b) =>
          r := NewReg();
          Append(LoadConst(r, if b then 1 else 0));
        case VarExpr(x) =>
          var local := Lookup(x);
          if local.Some? {
            r := NewReg();
            Append(LoadLocal(r, local.value));
          } else {
            AddError();
            r := 0;
          }
        case BinaryExpr(_, _, _, _) =>
          r := GenerateOperation(e);
        case NegExpr(_, _) =>
          r := GenerateOperation(e);
        case NotExpr(_, _) =>
          r := GenerateOperation(e);
        case AssignExpr(x, value) =>
          var local := Lookup(x);
          if local.Some? {
            r := GenerateExpr(value);
            Append(StoreLocal(local.value, r));
          } else {
            AddError();
            r := 0;
          }
      }
    }

    method GenerateOperation(e: Expr) returns (r: Reg)
      requires e.BinaryExpr? || e.NegExpr? || e.NotExpr?
      modifies this
      ensures (View(), r) == GenExpr(old(View()), e)
      decreases e, 1
    {
      hide Resolve, ExprGrows, WithZero;
      if e.BinaryExpr? {
        var a := GenerateExpr(e.lhs);
        var b := GenerateExpr(e.rhs);
        r := NewReg();
        Append(Binary(e.op, r, a, b, e.kind));
      } else {
        r := GenerateUnary(e);
      }
    }

    method GenerateUnary(e: Expr) returns (r: Reg)
      requires e.NegExpr? || e.NotExpr?
      modifies this
      ensures (View(), r) == GenExpr(old(View()), e)
      decreases e, 0
    {
      hide Resolve, ExprGrows;
      var a := GenerateExpr(e.operand);
      r := GenerateZero();
      if e.NegExpr? {
        Append(Binary(Sub, r, r + 1, a, e.kind));
      } else {
        Append(Binary(BinaryOp.Eq, r, a, r + 1, e.kind));
      }
    }

    method GenerateStmt(s: Stmt)
      requires |localScopes| > 0
      modifies this
      ensures View() == GenStmt(old(View()), s)
      decreases s, 1
    {
      hide GenIf, GenWhile, GenBlock, GenExpr;
      if currentTerminated {
        return;
      }
      match s {
        case ExprStmt(e) =>
          var _ := GenerateExpr(e);
        case VarDecl(x, init) =>
          var local := NewLocal();
          var top := |localScopes| - 1;
          localScopes := localScopes[top := WithName(localScopes[top], x, local)];
          assert View() == BindLocal(old(View()), x);
          if init.Some? {
            var v := GenerateExpr(init.value);
            Append(StoreLocal(local, v));
          }
        case ReturnStmt(value) =>
          GenerateReturn(value);
        case BreakStmt =>
          if breakLabels == [] {
            AddError();
          } else {
            Append(Jump(breakLabels[|breakLabels| - 1]));
            currentTerminated := true;
          }
        case ContinueStmt =>
          if continueLabels == [] {
            AddError();
          } else {
            Append(Jump(continueLabels[|continueLabels| - 1]));
            currentTerminated := true;
          }
        case IfStmt(_, _, _) =>
          GenerateIf(s);
        case WhileStmt(_, _, _) =>
          GenerateWhile(s);
        case BlockStmt(b) =>
          GenerateBlock(b);
      }
    }

    method GenerateReturn(value: Option<Expr>)
      modifies this
      ensures View() == GenReturn(old(View()), value)
    {
      hide GenExpr;
      if value.Some? {
        var v := GenerateExpr(value.value);
        Append(Return(v));
      } else {
        var zero := NewReg();
        Append(LoadConst(zero, 0));
        Append(Return(zero));
      }
      currentTerminated := true;
    }

    method JumpIfOpen(l: Label)
      modifies this`body
      ensures View() == JumpUnlessTerminated(old(View()), l)
    {
      if !currentTerminated {
        Append(Jump(l));
      }
    }

    /** Test and branch, then the branch block and the jump to the end. */
    method GenerateArm(cond: Reg, thenLabel: Label, elseLabel: Label, end: Label, b: Block)
      modifies this
      ensures View() == GenArm(old(View()), cond, thenLabel, elseLabel, end, b)
      decreases b, 3
    {
      hide GenBlock;
      Append(Branch(cond, thenLabel, elseLabel));
      Append(LabelMark(thenLabel));
      currentTerminated := false;
      GenerateBlock(b);
      JumpIfOpen(end);
    }

    method IfLabels(els: Else) returns (thenLabel: Label, elseLabel: Label, end: Label)
      modifies this`nextLabel
      ensures thenLabel == old(nextLabel) && end == old(nextLabel) + 1
      ensures elseLabel == if els.NoElse? then end else end + 1
      ensures nextLabel == if els.NoElse? then end + 1 else end + 2
    {
      thenLabel := NewLabel();
      end := NewLabel();
      elseLabel := end;
      if !els.NoElse? {
        elseLabel := NewLabel();
      }
    }

    method GenerateIf(s: Stmt)
      requires s.IfStmt?
      modifies this
      ensures View() == GenIf(old(View()), s)
      decreases s, 0
    {
      hide GenArm, GenBlock, GenExpr, GenElse, Grows, ExprGrows;
      var els := s.els;
      var cond := GenerateExpr(s.cond);
      var thenLabel, elseLabel, end := IfLabels(els);
      GenerateArm(cond, thenLabel, elseLabel, end, s.thenBlock);
      var thenTerminated := currentTerminated;
      ghost var g3 := View();
      if els.ElseIf? {
        currentTerminated := false;
      }
      var all, hasDefault := GenerateElse(els, elseLabel, end);
      assert (View(), all, hasDefault) == GenElse(StartElse(g3, els), els, elseLabel, end);
      Append(LabelMark(end));
      currentTerminated := hasDefault && thenTerminated && all;
    }

    /** The else-if chain is a loop; the label of the next test is placed at the
        end of each turn. */
    method GenerateElse(els: Else, label_: Label, end: Label) returns (all: bool, hasDefault: bool)
      modifies this
      ensures (View(), all, hasDefault) == GenElse(old(View()), els, label_, end)
      decreases els, 4
    {
      hide GenArm, GenBlock, GenExpr, GenElse, ElseAfterLabel;
      all, hasDefault := true, false;
      ghost var goal := GenElse(View(), els, label_, end);
      ElseLabelled(View(), els, label_, end);
      var ei := els;
      if !els.NoElse? {
        Append(LabelMark(label_));
      }
      while ei.ElseIf?
        invariant ei == els || ei < els
        invariant !hasDefault && StillToCome(View(), ei, end, all) == goal
        decreases ei
      {
        all := GenerateElseIf(ei, end, all);
        ei := ei.rest;
      }
      if ei.ElseBlock? {
        ElseBlockLast(View(), ei, end);
        currentTerminated := false;
        GenerateBlock(ei.body);
        all := all && currentTerminated;
        JumpIfOpen(end);
        hasDefault := true;
      } else {
        NoElseLast(View(), end);
      }
    }

    /** One else-if, and the label of what follows it. */
    method GenerateElseIf(ei: Else, end: Label, before: bool) returns (all: bool)
      requires ei.ElseIf?
      modifies this
      ensures StillToCome(View(), ei.rest, end, all) == StillToCome(old(View()), ei, end, before)
      decreases ei, 3
    {
      hide GenArm, GenBlock, GenExpr, GenElse, ElseAfterLabel, Grows, ExprGrows;
      ghost var g := View();
      var cond := GenerateExpr(ei.cond);
      var thenLabel := NewLabel();
      var next := end;
      if !ei.rest.NoElse? {
        next := NewLabel();
      }
      GenerateArm(cond, thenLabel, next, end, ei.thenBlock);
      all := before && currentTerminated;
      ElseIfTurn(g, ei, end, View());
      ElseLabelled(View(), ei.rest, next, end);
      if !ei.rest.NoElse? {
        Append(LabelMark(next));
      }
    }

    /** `for` loops arrive here with their step, `while` loops without. */
    method GenerateWhile(s: Stmt)
      requires s.WhileStmt?
      modifies this
      ensures View() == GenWhile(old(View()), s)
      decreases s, 0
    {
      hide GenBlock, GenExpr, LoopTail, LoopHead, ExprGrows;
      ghost var g := View();
      var condLabel, continueLabel, end := GenerateHead(s.cond, s.forStep);
      GenerateBlock(s.body);
      HeadStacks(g, s.cond, s.forStep);
      breakLabels := breakLabels[..|breakLabels| - 1];
      continueLabels := continueLabels[..|continueLabels| - 1];
      GenerateTail(s.forStep, condLabel, continueLabel, end);
    }

    method LoopLabels(step: Option<Expr>) returns (condLabel: Label, bodyLabel: Label, end: Label, continueLabel: Label)
      modifies this`nextLabel
      ensures condLabel == old(nextLabel) && bodyLabel == old(nextLabel) + 1 && end == old(nextLabel) + 2
      ensures continueLabel == if step.Some? then old(nextLabel) + 3 else condLabel
      ensures nextLabel == if step.Some? then old(nextLabel) + 4 else old(nextLabel) + 3
    {
      condLabel := NewLabel();
      bodyLabel := NewLabel();
      end := NewLabel();
      continueLabel := condLabel;
      if step.Some? {
        continueLabel := NewLabel();
      }
    }

    /** The labels of a loop, its condition and the start of its body. */
    method GenerateHead(cond: Expr, step: Option<Expr>) returns (condLabel: Label, continueLabel: Label, end: Label)
      modifies this
      ensures View() == LoopHead(old(View()), cond, step)
      ensures condLabel == CondLabel(old(View())) && end == EndLabel(old(View()))
      ensures continueLabel == ContinueLabel(old(View()), step)
    {
      hide GenExpr, Grows, FindScope;
      ghost var g := View();
      var bodyLabel;
      condLabel, bodyLabel, end, continueLabel := LoopLabels(step);
      Append(Jump(condLabel));
      assert View() == LoopEntry(g, step);
      Append(LabelMark(condLabel));
      var r := GenerateExpr(cond);
      Append(Branch(r, bodyLabel, end));
      Append(LabelMark(bodyLabel));
      currentTerminated := false;
      breakLabels := breakLabels + [end];
      continueLabels := continueLabels + [continueLabel];
    }

    method GenerateTail(step: Option<Expr>, condLabel: Label, continueLabel: Label, end: Label)
      modifies this
      ensures View() == LoopTail(old(View()), step, condLabel, continueLabel, end)
    {
      hide GenExpr;
      if step.Some? {
        Append(LabelMark(continueLabel));
        var _ := GenerateExpr(step.value);
        currentTerminated := false;
      }
      JumpIfOpen(condLabel);
      Append(LabelMark(end));
      currentTerminated := false;
    }

    method GenerateBlock(b: Block)
      modifies this
      ensures View() == GenBlock(old(View()), b)
      decreases b, 2
    {
      hide GenStmt, GenStmts;
      ghost var g := View();
      var outerTerminated := currentTerminated;
      currentTerminated := false;
      localScopes := localScopes + [map[]];
      ghost var goal := GenStmts(View(), b);
      var i := 0;
      while i < |b| && !currentTerminated
        invariant 0 <= i <= |b| && |localScopes| == |g.scopes| + 1
        invariant GenStmts(View(), b[i..]) == goal
      {
        StmtsStep(View(), b, i);
        GenerateStmt(b[i]);
        i := i + 1;
      }
      StmtsDone(View(), b[i..]);
      var blockTerminated := currentTerminated;
      localScopes := localScopes[..|localScopes| - 1];
      currentTerminated := outerTerminated || blockTerminated;
    }

    /** `gen_function`: counters and scopes start afresh, labels go on. Nothing
        is promised once an error has been reported. */
    method GenerateFunction(f: Func, id: nat) returns (fn: IrFunction)
      requires breakLabels == [] && continueLabels == []
      modifies this
      ensures fresh(fn) && (old(failed) ==> failed)
      ensures breakLabels == [] && continueLabels == []
      ensures !old(failed) ==> failed == GenFunc(f, old(nextLabel)).failed
      ensures !failed ==> nextLabel == GenFunc(f, old(nextLabel)).nextLabel
      ensures !failed ==> fn.View() == Lowered(f, id, old(nextLabel)) && ShellOf(f, fn.View()) && fn.id == id
      ensures !failed ==> View() == old(View()).(nextLabel := nextLabel)
    {
      hide GenBlock, GenReturn, ShellOf, Lowered, MarkedEntry, ExportSymbol, ArgScope;
      var savedBody, savedReg, savedLocal := body, nextReg, nextLocal;
      var savedTerminated, savedScopes := currentTerminated, localScopes;
      body, nextReg, nextLocal, currentTerminated := [], 0, 0, false;
      BindArguments(f.args);
      ghost var start := View();
      GenerateBlock(f.body);
      if !currentTerminated {
        if f.isVoid {
          GenerateReturn(None);
        } else {
          AddError();
        }
      }
      fn := NewFunction(f, id);
      if !failed {
        LoweredIs(f, id, start.nextLabel, fn.View());
      }
      body, nextReg, nextLocal := savedBody, savedReg, savedLocal;
      currentTerminated, localScopes := savedTerminated, savedScopes;
    }

    /** The IR function with what the source says of it and the present code. */
    method NewFunction(f: Func, id: nat) returns (fn: IrFunction)
      ensures fresh(fn)
      ensures fn.View() == Fn(id, f.name, |f.args|, nextLocal, nextReg, 0, body, false, MarkedEntry(f.attributes), -1,
                              ExportSymbol(f.attributes), "")
    {
      var isEntry, exportName := ReadAttributes(f.attributes);
      fn := new IrFunction(Fn(id, f.name, |f.args|, nextLocal, nextReg, 0, body, false, isEntry, -1, exportName, ""));
    }

    method ReadAttributes(attributes: seq<Attribute>) returns (isEntry: bool, exportName: string)
      ensures isEntry == MarkedEntry(attributes) && exportName == ExportSymbol(attributes)
    {
      isEntry, exportName := false, "";
      var i := 0;
      while i < |attributes|
        invariant 0 <= i <= |attributes|
        invariant isEntry == MarkedEntry(attributes[..i]) && exportName == ExportSymbol(attributes[..i])
      {
        match attributes[i] {
          case EntryAttribute => isEntry := true;
          case ExportAttribute(symbol) => exportName := symbol;
        }
        assert attributes[..i + 1][..i] == attributes[..i];
        i := i + 1;
      }
      assert attributes[..|attributes|] == attributes;
    }

    method BindArguments(names: seq<string>)
      requires nextLocal == 0
      modifies this`nextLocal, this`localScopes
      ensures nextLocal == |names| && localScopes == [ArgScope(names, 0, map[])]
    {
      localScopes := [map[]];
      while nextLocal < |names|
        invariant nextLocal <= |names| && |localScopes| == 1
        invariant ArgScope(names, nextLocal, localScopes[0]) == ArgScope(names, 0, map[])
      {
        var name := names[nextLocal];
        var local := NewLocal();
        localScopes := [WithName(localScopes[0], name, local)];
      }
    }
  }

  /** The outcome of the chain when `so` tells whether all branches up to here
      terminated. */
  function StillToCome(g: Gen, els: Else, end: Label, so: bool): (Gen, bool, bool) {
    var (g', all, default) := ElseAfterLabel(g, els, end);
    (g', so && all, default)
  }

  lemma HeadStacks(g: Gen, c: Expr, step: Option<Expr>)
    ensures LoopHead(g, c, step).breaks == g.breaks + [EndLabel(g)]
    ensures LoopHead(g, c, step).continues == g.continues + [ContinueLabel(g, step)]
  {
  }

  lemma ElseLabelled(g: Gen, els: Else, label_: Label, end: Label)
    ensures GenElse(g, els, label_, end)
         == ElseAfterLabel(if els.NoElse? then g else Emit(g, LabelMark(label_)), els, end)
  {
    hide GenArm, GenBlock, GenExpr;
  }

  lemma NoElseLast(g: Gen, end: Label)
    ensures ElseAfterLabel(g, NoElse, end) == (g, true, false)
  {
  }

  lemma ElseBlockLast(g: Gen, els: Else, end: Label)
    requires els.ElseBlock?
    ensures var g1 := GenBlock(g.(terminated := false), els.body);
      ElseAfterLabel(g, els, end) == (JumpUnlessTerminated(g1, end), g1.terminated, true)
  {
    hide GenBlock;
  }

  lemma ElseIfTurn(g: Gen, ei: Else, end: Label, arm: Gen)
    requires ei.ElseIf?
    requires var (g1, cond) := GenExpr(g, ei.cond);
      arm == GenArm(g1.(nextLabel := if ei.rest.NoElse? then g1.nextLabel + 1 else g1.nextLabel + 2), cond, g1.nextLabel,
                    if ei.rest.NoElse? then end else g1.nextLabel + 1, end, ei.thenBlock)
    ensures var next := if ei.rest.NoElse? then end else GenExpr(g, ei.cond).0.nextLabel + 1;
      var (g4, all, default) := GenElse(arm, ei.rest, next, end);
      ElseAfterLabel(g, ei, end) == (g4, arm.terminated && all, default)
  {
    hide GenArm, GenBlock, GenExpr, GenElse;
  }

  lemma StmtsStep(g: Gen, b: Block, i: nat)
    requires |g.scopes| > 0 && i < |b| && !g.terminated
    ensures GenStmts(g, b[i..]) == GenStmts(GenStmt(g, b[i]), b[i + 1..])
  {
    assert b[i..][1..] == b[i + 1..];
  }

  lemma StmtsDone(g: Gen, b: Block)
    requires |g.scopes| > 0 && (b == [] || g.terminated)
    ensures GenStmts(g, b) == g
  {
  }
}
