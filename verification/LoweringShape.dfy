/** Lowered code is well formed: registers are defined once and used in their
    block, labels are unique and every target exists, jumps and returns end a
    block. */
module LoweringShape {
  import opened Words
  import opened Ir
  import opened WellFormed
  import opened Ast
  import opened Lowering

  ghost function Marks(body: seq<Inst>): set<Label> {
    set i | 0 <= i < |body| && body[i].LabelMark? :: body[i].id
  }

  /** Every jump goes to one of `ls`. */
  ghost predicate TargetsIn(body: seq<Inst>, ls: set<Label>) {
    forall i :: 0 <= i < |body| ==> TargetSet(body[i]) <= ls
  }

  /** The code does not end in a jump or return. */
  predicate Open(body: seq<Inst>) {
    body == [] || !IsTerminator(body[|body| - 1])
  }

  ghost predicate Undefined(body: seq<Inst>, d: Reg) {
    forall i :: 0 <= i < |body| ==> Def(body[i]) != Some(d)
  }

  ghost predicate DefsBelow(body: seq<Inst>, n: nat) {
    forall i :: 0 <= i < |body| && Def(body[i]).Some? ==> Def(body[i]).value < n
  }

  ghost predicate MarksBelow(body: seq<Inst>, n: nat) {
    forall l :: l in Marks(body) ==> l < n
  }

  /** The registers defined in the last block. */
  ghost function FlowEnd(body: seq<Inst>): set<Reg> {
    Flow(body, |body|)
  }

  /** Nothing that refers to another function, a table, memory or an address. */
  predicate Plain(inst: Inst) {
    inst.LoadConst? || inst.LoadLocal? || inst.StoreLocal? || inst.Binary? || inst.Return? || inst.Jump?
    || inst.Branch? || inst.LabelMark?
  }

  predicate AllPlain(body: seq<Inst>) {
    forall i :: 0 <= i < |body| ==> Plain(body[i])
  }

  /** Well formed so far; the labels of `pending` are still to come. */
  ghost predicate Shaped(g: Gen, pending: set<Label>) {
    && WfBody(g.body) && AllPlain(g.body)
    && DefsBelow(g.body, g.nextReg)
    && MarksBelow(g.body, g.nextLabel)
    && TargetsIn(g.body, Marks(g.body) + pending)
  }

  ghost predicate Shape(g: Gen, pending: set<Label>) {
    Shaped(g, pending) && (!g.terminated ==> Open(g.body))
  }

  /** The new labels come from the counter, or are `extra`. */
  ghost predicate MarksGrow(g: Gen, g': Gen, extra: set<Label>) {
    forall l :: l in Marks(g'.body) ==> l in Marks(g.body) || l in extra || g.nextLabel <= l < g'.nextLabel
  }

  // --- appending one instruction ---

  lemma {:induction false} FlowPrefix(body: seq<Inst>, rest: seq<Inst>, pc: nat)
    requires pc <= |body|
    ensures Flow(body + rest, pc) == Flow(body, pc)
    decreases pc
  {
    if pc > 0 {
      assert (body + rest)[pc - 1] == body[pc - 1];
      FlowPrefix(body, rest, pc - 1);
    }
  }

  lemma AppendMarks(body: seq<Inst>, inst: Inst)
    ensures Marks(body + [inst]) == Marks(body) + (if inst.LabelMark? then {inst.id} else {})
  {
    var b := body + [inst];
    forall l | l in Marks(body) ensures l in Marks(b) {
      var i :| 0 <= i < |body| && body[i].LabelMark? && body[i].id == l;
      assert b[i] == body[i];
    }
    if inst.LabelMark? {
      assert b[|body|] == inst;
    }
  }

  lemma PrefixMarks(body: seq<Inst>, more: seq<Inst>)
    requires body <= more
    ensures Marks(body) <= Marks(more)
  {
    forall l | l in Marks(body) ensures l in Marks(more) {
      var i :| 0 <= i < |body| && body[i].LabelMark? && body[i].id == l;
      assert more[i] == body[i];
    }
  }

  lemma AppendWf(body: seq<Inst>, inst: Inst)
    requires WfBody(body) && (Open(body) || inst.LabelMark?)
    requires Def(inst).Some? ==> Undefined(body, Def(inst).value)
    requires forall r :: r in Uses(inst) ==> r in FlowEnd(body)
    requires inst.LabelMark? ==> inst.id !in Marks(body)
    ensures WfBody(body + [inst])
    ensures FlowEnd(body + [inst]) == if inst.LabelMark? then {} else FlowEnd(body) + DefSet(inst)
  {
    var b := body + [inst];
    FlowPrefix(body, [inst], |body|);
    forall i, r | 0 <= i < |b| && r in Uses(b[i])
      ensures r in Flow(b, i)
    {
      FlowPrefix(body, [inst], i);
    }
    forall i, j | 0 <= i < j < |b| && b[i].LabelMark? && b[j].LabelMark?
      ensures b[i] != b[j]
    {
      if j == |body| {
        assert body[i].id in Marks(body);
      }
    }
  }

  /** Appending an instruction that fits. */
  lemma EmitShaped(g: Gen, inst: Inst, pending: set<Label>)
    requires Shaped(g, pending) && (Open(g.body) || inst.LabelMark?)
    requires Def(inst).Some? ==> Undefined(g.body, Def(inst).value) && Def(inst).value < g.nextReg
    requires forall r :: r in Uses(inst) ==> r in FlowEnd(g.body)
    requires inst.LabelMark? ==> inst.id !in Marks(g.body) && inst.id < g.nextLabel
    requires TargetSet(inst) <= Marks(g.body) + pending && Plain(inst)
    ensures Shaped(Emit(g, inst), if inst.LabelMark? then pending - {inst.id} else pending)
    ensures FlowEnd(Emit(g, inst).body) == if inst.LabelMark? then {} else FlowEnd(g.body) + DefSet(inst)
    ensures Marks(Emit(g, inst).body) == Marks(g.body) + (if inst.LabelMark? then {inst.id} else {})
    ensures Open(Emit(g, inst).body) <==> !IsTerminator(inst)
  {
    hide WfBody, Marks, FlowEnd;
    AppendWf(g.body, inst);
    AppendMarks(g.body, inst);
  }

  lemma EmitUndefined(g: Gen, inst: Inst, d: Reg)
    requires Undefined(g.body, d) && Def(inst) != Some(d)
    ensures Undefined(Emit(g, inst).body, d)
  {
  }

  /** More labels may be pending. */
  lemma MorePending(g: Gen, pending: set<Label>, more: set<Label>)
    requires Shaped(g, pending) && pending <= Marks(g.body) + more
    ensures Shaped(g, more)
  {
    hide WfBody;
  }

  // --- expressions ---

  ghost predicate ExprShaped(g: Gen, g': Gen, r: Reg, pending: set<Label>) {
    && Shaped(g', pending) && Open(g'.body)
    && r in FlowEnd(g'.body) && FlowEnd(g.body) <= FlowEnd(g'.body)
    && Marks(g'.body) == Marks(g.body)
  }

  lemma {:induction false} ExprShape(g: Gen, e: Expr, pending: set<Label>)
    requires Shaped(g, pending) && Open(g.body) && !GenExpr(g, e).0.failed
    ensures ExprShaped(g, GenExpr(g, e).0, GenExpr(g, e).1, pending)
    decreases e
  {
    hide Open, Marks, FlowEnd, WfBody, Resolve, Shaped, WithZero;
    match e
    case IntExpr(i) => LeafShape(g, LoadConst(g.nextReg, i), pending);
    case BoolExpr(b) => LeafShape(g, LoadConst(g.nextReg, if b then 1 else 0), pending);
    case VarExpr(x) => LeafShape(g, LoadLocal(g.nextReg, Resolve(g, x).value), pending);
    case BinaryExpr(_, l, r, _) =>
      ExprShape(g, l, pending);
      ExprShape(GenExpr(g, l).0, r, pending);
      BinaryShape(g, e, pending);
    case NegExpr(x, k) =>
      ExprShape(g, x, pending);
      var (g1, a) := GenExpr(g, x);
      ZeroShape(g1, Binary(Sub, g1.nextReg, g1.nextReg + 1, a, k), a, pending);
    case NotExpr(x, k) =>
      ExprShape(g, x, pending);
      var (g1, a) := GenExpr(g, x);
      ZeroShape(g1, Binary(BinaryOp.Eq, g1.nextReg, a, g1.nextReg + 1, k), a, pending);
    case AssignExpr(_, r) =>
      ExprShape(g, r, pending);
      AssignShape(g, e, pending);
  }

  lemma LeafShape(g: Gen, inst: Inst, pending: set<Label>)
    requires Shaped(g, pending) && Open(g.body) && Def(inst) == Some(g.nextReg) && Uses(inst) == [] && Plain(inst) && Pure(inst)
    ensures ExprShaped(g, Emit(g.(nextReg := g.nextReg + 1), inst), g.nextReg, pending)
  {
    hide Open, Marks, FlowEnd, WfBody;
    EmitShaped(g.(nextReg := g.nextReg + 1), inst, pending);
  }

  lemma BinaryShape(g: Gen, e: Expr, pending: set<Label>)
    requires e.BinaryExpr? && !GenExpr(g, e).0.failed
    requires var (g1, a) := GenExpr(g, e.lhs); var (g2, b) := GenExpr(g1, e.rhs);
      ExprShaped(g, g1, a, pending) && ExprShaped(g1, g2, b, pending)
    ensures ExprShaped(g, GenExpr(g, e).0, GenExpr(g, e).1, pending)
  {
    hide Open, Marks, FlowEnd, WfBody, Resolve;
    var (g1, a) := GenExpr(g, e.lhs);
    var (g2, b) := GenExpr(g1, e.rhs);
    EmitShaped(g2.(nextReg := g2.nextReg + 1), Binary(e.op, g2.nextReg, a, b, e.kind), pending);
  }

  lemma AssignShape(g: Gen, e: Expr, pending: set<Label>)
    requires e.AssignExpr? && !GenExpr(g, e).0.failed
    requires ExprShaped(g, GenExpr(g, e.rhs).0, GenExpr(g, e.rhs).1, pending)
    ensures ExprShaped(g, GenExpr(g, e).0, GenExpr(g, e).1, pending)
  {
    hide Open, Marks, FlowEnd, WfBody, Resolve;
    EmitShaped(GenExpr(g, e.rhs).0, StoreLocal(Resolve(g, e.name).value, GenExpr(g, e.rhs).1), pending);
  }

  lemma ZeroShape(g: Gen, inst: Inst, a: Reg, pending: set<Label>)
    requires Shaped(g, pending) && Open(g.body) && a in FlowEnd(g.body)
    requires inst.Binary? && inst.dst == g.nextReg && (forall r :: r in Uses(inst) ==> r == a || r == g.nextReg + 1)
    ensures ExprShaped(g, WithZero(g, inst).0, g.nextReg, pending)
  {
    hide Open, Marks, FlowEnd, WfBody;
    var g1 := g.(nextReg := g.nextReg + 2);
    var zero := LoadConst(g.nextReg + 1, 0);
    EmitShaped(g1, zero, pending);
    EmitUndefined(g1, zero, g.nextReg);
    EmitShaped(Emit(g1, zero), inst, pending);
  }

  // --- statements ---

  /** The labels that break and continue may jump to are pending. */
  ghost predicate Stacked(g: Gen, pending: set<Label>) {
    && (forall i :: 0 <= i < |g.breaks| ==> g.breaks[i] in pending)
    && (forall i :: 0 <= i < |g.continues| ==> g.continues[i] in pending)
  }

  lemma {:induction false} StmtShape(g: Gen, s: Stmt, pending: set<Label>)
    requires |g.scopes| > 0 && Shape(g, pending) && Stacked(g, pending) && !GenStmt(g, s).failed
    ensures Shape(GenStmt(g, s), pending) && MarksGrow(g, GenStmt(g, s), {})
    decreases s, 1
  {
    hide Open, Marks, FlowEnd, WfBody, Shaped;
    if !g.terminated {
      match s
      case ExprStmt(e) => ExprShape(g, e, pending);
      case VarDecl(_, _) => DeclShape(g, s, pending);
      case ReturnStmt(r) => ReturnShape(g, r, pending);
      case BreakStmt => JumpShape(g, g.breaks, pending);
      case ContinueStmt => JumpShape(g, g.continues, pending);
      case IfStmt(_, _, _) => IfShape(g, s, pending);
      case WhileStmt(_, _, _) => WhileShape(g, s, pending);
      case BlockStmt(b) => BlockShape(g, b, pending);
    }
  }

  lemma DeclShape(g: Gen, s: Stmt, pending: set<Label>)
    requires s.VarDecl? && |g.scopes| > 0 && !g.terminated && Shape(g, pending) && !GenStmt(g, s).failed
    ensures Shape(GenStmt(g, s), pending) && MarksGrow(g, GenStmt(g, s), {})
  {
    hide Open, Marks, FlowEnd, WfBody;
    if s.init.Some? {
      var g1 := BindLocal(g, s.name);
      var (g2, v) := GenExpr(g1, s.init.value);
      ExprShape(g1, s.init.value, pending);
      EmitShaped(g2, StoreLocal(g.nextLocal, v), pending);
    }
  }

  lemma ReturnShape(g: Gen, result: Option<Expr>, pending: set<Label>)
    requires !g.terminated && Shape(g, pending) && !GenReturn(g, result).failed
    ensures Shape(GenReturn(g, result), pending) && MarksGrow(g, GenReturn(g, result), {})
    ensures GenReturn(g, result).terminated
  {
    hide Open, Marks, FlowEnd, WfBody;
    if result.Some? {
      ExprShape(g, result.value, pending);
      EmitShaped(GenExpr(g, result.value).0, Return(GenExpr(g, result.value).1), pending);
    } else {
      var g1 := g.(nextReg := g.nextReg + 1);
      EmitShaped(g1, LoadConst(g.nextReg, 0), pending);
      EmitShaped(Emit(g1, LoadConst(g.nextReg, 0)), Return(g.nextReg), pending);
    }
  }

  lemma JumpShape(g: Gen, labels: seq<Label>, pending: set<Label>)
    requires !g.terminated && Shape(g, pending) && !GenJump(g, labels).failed
    requires forall i :: 0 <= i < |labels| ==> labels[i] in pending
    ensures Shape(GenJump(g, labels), pending) && MarksGrow(g, GenJump(g, labels), {})
  {
    hide Open, Marks, FlowEnd, WfBody;
    EmitShaped(g, Jump(labels[|labels| - 1]), pending);
  }

  lemma UnlessShape(g: Gen, l: Label, pending: set<Label>)
    requires Shape(g, pending) && l in Marks(g.body) + pending
    ensures Shaped(JumpUnlessTerminated(g, l), pending)
    ensures Marks(JumpUnlessTerminated(g, l).body) == Marks(g.body)
  {
    hide Open, Marks, FlowEnd, WfBody;
    if !g.terminated {
      EmitShaped(g, Jump(l), pending);
    }
  }

  /** Passing a label that is due. */
  lemma MarkShape(g: Gen, l: Label, pending: set<Label>)
    requires Shaped(g, pending + {l}) && l !in Marks(g.body) && l < g.nextLabel
    ensures Shaped(Emit(g, LabelMark(l)), pending) && Open(Emit(g, LabelMark(l)).body)
    ensures Marks(Emit(g, LabelMark(l)).body) == Marks(g.body) + {l}
  {
    hide Open, Marks, FlowEnd, WfBody, Shaped;
    EmitShaped(g, LabelMark(l), pending + {l});
    MorePending(Emit(g, LabelMark(l)), (pending + {l}) - {l}, pending);
  }

  lemma {:induction false} BlockShape(g: Gen, b: Block, pending: set<Label>)
    requires !g.terminated && Shape(g, pending) && Stacked(g, pending) && !GenBlock(g, b).failed
    ensures Shape(GenBlock(g, b), pending) && MarksGrow(g, GenBlock(g, b), {})
    decreases b, 2
  {
    hide Open, Marks, FlowEnd, WfBody;
    StmtsShape(g.(terminated := false, scopes := g.scopes + [map[]]), b, pending);
  }

  lemma {:induction false} StmtsShape(g: Gen, b: Block, pending: set<Label>)
    requires |g.scopes| > 0 && Shape(g, pending) && Stacked(g, pending) && !GenStmts(g, b).failed
    ensures Shape(GenStmts(g, b), pending) && MarksGrow(g, GenStmts(g, b), {})
    decreases b, 0
  {
    hide Open, Marks, FlowEnd, WfBody, Shaped;
    if b != [] && !g.terminated {
      StmtShape(g, b[0], pending);
      StmtsShape(GenStmt(g, b[0]), b[1..], pending);
    }
  }

  lemma {:induction false} ArmShape(g: Gen, cond: Reg, thenLabel: Label, elseLabel: Label, end: Label, b: Block,
                                    pending: set<Label>)
    requires Shaped(g, pending) && Open(g.body) && cond in FlowEnd(g.body) && Stacked(g, pending)
    requires thenLabel !in Marks(g.body) && thenLabel < g.nextLabel && elseLabel in pending && end in pending
    requires !GenArm(g, cond, thenLabel, elseLabel, end, b).failed
    ensures Shaped(GenArm(g, cond, thenLabel, elseLabel, end, b), pending)
    ensures MarksGrow(g, GenArm(g, cond, thenLabel, elseLabel, end, b), {thenLabel})
    decreases b, 3
  {
    hide Open, Marks, FlowEnd, WfBody, Shaped;
    MorePending(g, pending, pending + {thenLabel});
    EmitShaped(g, Branch(cond, thenLabel, elseLabel), pending + {thenLabel});
    var g1 := Emit(g, Branch(cond, thenLabel, elseLabel));
    MarkShape(g1, thenLabel, pending);
    var g2 := Emit(g1, LabelMark(thenLabel)).(terminated := false);
    SameShaped(Emit(g1, LabelMark(thenLabel)), g2, pending);
    BlockShape(g2, b, pending);
    UnlessShape(GenBlock(g2, b), end, pending);
  }

  lemma SameShaped(g: Gen, g1: Gen, pending: set<Label>)
    requires Shaped(g, pending) && g1.body == g.body && g1.nextReg >= g.nextReg && g1.nextLabel >= g.nextLabel
    ensures Shaped(g1, pending)
  {
  }

  lemma {:induction false} IfShape(g: Gen, s: Stmt, pending: set<Label>)
    requires s.IfStmt? && !g.terminated && Shape(g, pending) && Stacked(g, pending) && !GenIf(g, s).failed
    ensures Shape(GenIf(g, s), pending) && MarksGrow(g, GenIf(g, s), {})
    decreases s, 0
  {
    hide Open, Marks, FlowEnd, WfBody, Shaped, GenArm, GenElse, GenExpr;
    var els := s.els;
    var (g1, cond) := GenExpr(g, s.cond);
    var thenLabel := g1.nextLabel;
    var end := g1.nextLabel + 1;
    var elseLabel := if els.NoElse? then end else g1.nextLabel + 2;
    var g2 := g1.(nextLabel := if els.NoElse? then g1.nextLabel + 2 else g1.nextLabel + 3);
    var g3 := GenArm(g2, cond, thenLabel, elseLabel, end, s.thenBlock);
    var g3' := StartElse(g3, els);
    var g4 := GenElse(g3', els, elseLabel, end).0;
    var ps := pending + {end} + {elseLabel};
    ExprShape(g, s.cond, pending);
    NoMark(g1, pending);
    SameShaped(g1, g2, pending);
    MorePending(g2, pending, ps);
    ArmShape(g2, cond, thenLabel, elseLabel, end, s.thenBlock, ps);
    SameShaped(g3, g3', ps);
    ElseShape(g3', els, elseLabel, end, pending + {end});
    MarkShape(g4, end, pending);
    SameShaped(Emit(g4, LabelMark(end)), GenIf(g, s), pending);
  }

  /** Labels from the counter have not been placed yet. */
  lemma NoMark(g: Gen, pending: set<Label>)
    requires Shaped(g, pending)
    ensures forall l :: l >= g.nextLabel ==> l !in Marks(g.body)
  {
  }

  lemma {:induction false} ElseShape(g: Gen, els: Else, label_: Label, end: Label, pending: set<Label>)
    requires Shaped(g, pending + {label_}) && Stacked(g, pending) && !GenElse(g, els, label_, end).0.failed
    requires end in pending && end < g.nextLabel && label_ < g.nextLabel && (els.NoElse? <==> label_ == end)
    requires label_ !in Marks(g.body) && end !in Marks(g.body)
    ensures Shaped(GenElse(g, els, label_, end).0, pending)
    ensures MarksGrow(g, GenElse(g, els, label_, end).0, if els.NoElse? then {} else {label_})
    decreases els, 4
  {
    hide Open, Marks, FlowEnd, WfBody, Shaped;
    match els
    case NoElse =>
      assert pending + {label_} == pending;
    case ElseIf(c, b, rest) =>
      var g0 := Emit(g, LabelMark(label_));
      MarkShape(g, label_, pending);
      ElseIfShape(g0, els, label_, end, pending);
    case ElseBlock(b) =>
      var g0 := Emit(g, LabelMark(label_)).(terminated := false);
      MarkShape(g, label_, pending);
      SameShaped(Emit(g, LabelMark(label_)), g0, pending);
      BlockShape(g0, b, pending);
      UnlessShape(GenBlock(g0, b), end, pending);
  }

  lemma {:induction false} ElseIfShape(g: Gen, els: Else, label_: Label, end: Label, pending: set<Label>)
    requires els.ElseIf? && Shaped(g, pending) && Open(g.body) && Stacked(g, pending)
    requires !ElseAfterLabel(g, els, end).0.failed
    requires end in pending && end < g.nextLabel && end !in Marks(g.body)
    ensures Shaped(ElseAfterLabel(g, els, end).0, pending) && MarksGrow(g, ElseAfterLabel(g, els, end).0, {})
    decreases els, 0
  {
    hide Open, Marks, FlowEnd, WfBody, Shaped, GenArm, GenExpr;
    var (g1, cond) := GenExpr(g, els.cond);
    var next := if els.rest.NoElse? then end else g1.nextLabel + 1;
    var g2 := g1.(nextLabel := if els.rest.NoElse? then g1.nextLabel + 1 else g1.nextLabel + 2);
    var g3 := GenArm(g2, cond, g1.nextLabel, next, end, els.thenBlock);
    ExprShape(g, els.cond, pending);
    NoMark(g1, pending);
    SameShaped(g1, g2, pending);
    MorePending(g2, pending, pending + {next});
    ArmShape(g2, cond, g1.nextLabel, next, end, els.thenBlock, pending + {next});
    ElseShape(g3, els.rest, next, end, pending);
  }

  // --- loops ---

  lemma {:induction false} WhileShape(g: Gen, s: Stmt, pending: set<Label>)
    requires s.WhileStmt? && !g.terminated && Shape(g, pending) && Stacked(g, pending) && !GenWhile(g, s).failed
    ensures Shape(GenWhile(g, s), pending) && MarksGrow(g, GenWhile(g, s), {})
    decreases s, 0
  {
    hide Open, Marks, FlowEnd, WfBody, Shaped, LoopHead, LoopTail;
    var head := LoopHead(g, s.cond, s.forStep);
    var cont := ContinueLabel(g, s.forStep);
    var body := GenBlock(head, s.body);
    var b := body.(breaks := g.breaks, continues := g.continues);
    var ps := pending + {EndLabel(g), cont};
    TailFailed(b, s.forStep, CondLabel(g), cont, EndLabel(g));
    HeadShape(g, s, pending);
    BlockShape(head, s.body, ps);
    SameShaped(body, b, ps);
    PrefixMarks(head.body, b.body);
    TailShape(g, b, s.forStep, pending);
  }

  lemma TailFailed(g: Gen, step: Option<Expr>, cond: Label, cont: Label, end: Label)
    ensures g.failed ==> LoopTail(g, step, cond, cont, end).failed
  {
  }

  lemma HeadShape(g: Gen, s: Stmt, pending: set<Label>)
    requires s.WhileStmt? && !g.terminated && Shape(g, pending) && Stacked(g, pending)
    requires !LoopHead(g, s.cond, s.forStep).failed
    ensures var h := LoopHead(g, s.cond, s.forStep); var ps := pending + {EndLabel(g), ContinueLabel(g, s.forStep)};
      && !h.terminated && Shape(h, ps) && Stacked(h, ps)
      && CondLabel(g) in Marks(h.body) && Marks(h.body) <= Marks(g.body) + {CondLabel(g), BodyLabel(g)}
      && h.nextLabel == g.nextLabel + (if s.forStep.Some? then 4 else 3)
  {
    hide Open, Marks, FlowEnd, WfBody, Shaped;
    var step := s.forStep;
    var h := LoopHead(g, s.cond, step);
    var g0 := g.(nextLabel := if step.Some? then g.nextLabel + 4 else g.nextLabel + 3);
    var ps := pending + {EndLabel(g), ContinueLabel(g, step)};
    var all := ps + {BodyLabel(g)} + {CondLabel(g)};
    NoMark(g, pending);
    SameShaped(g, g0, pending);
    MorePending(g0, pending, all);
    EmitShaped(g0, Jump(CondLabel(g)), all);
    var g1 := LoopEntry(g, step);
    MarkShape(g1, CondLabel(g), ps + {BodyLabel(g)});
    var g2 := Emit(g1, LabelMark(CondLabel(g)));
    ExprShape(g2, s.cond, ps + {BodyLabel(g)});
    var (g3, cond) := GenExpr(g2, s.cond);
    EmitShaped(g3, Branch(cond, BodyLabel(g), EndLabel(g)), ps + {BodyLabel(g)});
    var g4 := Emit(g3, Branch(cond, BodyLabel(g), EndLabel(g)));
    MarkShape(g4, BodyLabel(g), ps);
    SameShaped(Emit(g4, LabelMark(BodyLabel(g))), h, ps);
  }

  lemma TailShape(g: Gen, b: Gen, step: Option<Expr>, pending: set<Label>)
    requires Shape(b, pending + {EndLabel(g), ContinueLabel(g, step)}) && CondLabel(g) in Marks(b.body)
    requires forall l :: l in Marks(b.body) ==>
               l in Marks(g.body) || l in {CondLabel(g), BodyLabel(g)} || g.nextLabel + (if step.Some? then 4 else 3) <= l < b.nextLabel
    requires Shaped(g, pending) && b.nextLabel >= g.nextLabel + (if step.Some? then 4 else 3)
    requires !LoopTail(b, step, CondLabel(g), ContinueLabel(g, step), EndLabel(g)).failed
    ensures var g' := LoopTail(b, step, CondLabel(g), ContinueLabel(g, step), EndLabel(g));
      Shape(g', pending) && MarksGrow(g, g', {})
  {
    hide Open, Marks, FlowEnd, WfBody, Shaped;
    var cont := ContinueLabel(g, step);
    var ps := pending + {EndLabel(g)};
    NoMark(g, pending);
    var g1 := b;
    if step.Some? {
      MorePending(b, pending + {EndLabel(g), cont}, ps + {cont});
      MarkShape(b, cont, ps);
      ExprShape(Emit(b, LabelMark(cont)), step.value, ps);
      g1 := GenExpr(Emit(b, LabelMark(cont)), step.value).0.(terminated := false);
      SameShaped(GenExpr(Emit(b, LabelMark(cont)), step.value).0, g1, ps);
    } else {
      MorePending(b, pending + {EndLabel(g), cont}, ps);
    }
    UnlessShape(g1, CondLabel(g), ps);
    var g2 := JumpUnlessTerminated(g1, CondLabel(g));
    MarkShape(g2, EndLabel(g), pending);
    SameShaped(Emit(g2, LabelMark(EndLabel(g))), Emit(g2, LabelMark(EndLabel(g))).(terminated := false), pending);
  }

  // --- functions ---

  /** A lowered function is well formed, ends in a jump or return, all its jump
      targets exist, and its labels are from its own range. */
  lemma FuncShape(f: Func, firstLabel: nat)
    requires !GenFunc(f, firstLabel).failed
    ensures var g := GenFunc(f, firstLabel);
      && WfBody(g.body) && TargetsIn(g.body, Marks(g.body)) && AllPlain(g.body)
      && DefsBelow(g.body, g.nextReg)
      && (forall l :: l in Marks(g.body) ==> firstLabel <= l < g.nextLabel)
  {
    hide Open, FlowEnd, WfBody;
    var g0 := StartFunc(f, firstLabel);
    StartShape(f, firstLabel);
    BlockShape(g0, f.body, {});
    var g1 := GenBlock(g0, f.body);
    assert Marks(g1.body) + {} == Marks(g1.body);
    if !g1.terminated {
      ReturnShape(g1, None, {});
    }
  }

  lemma StartShape(f: Func, firstLabel: nat)
    ensures Shape(StartFunc(f, firstLabel), {}) && Stacked(StartFunc(f, firstLabel), {})
    ensures Marks(StartFunc(f, firstLabel).body) == {}
  {
  }
}
