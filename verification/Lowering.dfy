/** What the IR generator emits, as functions on its state: the specification of
    the generator object and the subject of the correctness proof. */
module Lowering {
  import opened Words
  import opened Ir
  import opened Ast

  datatype Gen = Gen(
    body: seq<Inst>,
    nextReg: nat,
    nextLocal: nat,
    nextLabel: nat,
    terminated: bool,
    breaks: seq<Label>,
    continues: seq<Label>,
    scopes: seq<map<string, Local>>,
    failed: bool)

  function Emit(g: Gen, inst: Inst): Gen {
    g.(body := g.body + [inst])
  }

  function Error(g: Gen): Gen {
    g.(failed := true)
  }

  /** The local a name refers to: innermost scope first. */
  function Resolve(g: Gen, name: string): Option<Local> {
    match FindScope(g.scopes, name)
    case None => None
    case Some(i) => Some(g.scopes[i][name])
  }

  /** `g'` extends `g`: code is only appended, counters only grow, the label
      stacks and the outer scopes are as before. */
  ghost predicate Grows(g: Gen, g': Gen) {
    && g.body <= g'.body
    && g.nextReg <= g'.nextReg && g.nextLocal <= g'.nextLocal && g.nextLabel <= g'.nextLabel
    && g'.breaks == g.breaks && g'.continues == g.continues
    && |g'.scopes| == |g.scopes|
    && (|g.scopes| > 0 ==> g'.scopes[..|g.scopes| - 1] == g.scopes[..|g.scopes| - 1])
    && (g.failed ==> g'.failed)
  }

  /** `GenExpr` changes only the code and the register counter. */
  ghost predicate ExprGrows(g: Gen, g': Gen) {
    && g' == g.(body := g'.body, nextReg := g'.nextReg, failed := g'.failed)
    && g.body <= g'.body && g.nextReg <= g'.nextReg && (g.failed ==> g'.failed)
  }

  /** A zero in the second new register, then `inst`, which defines the first. */
  function WithZero(g: Gen, inst: Inst): (out: (Gen, Reg))
    ensures ExprGrows(g, out.0) && out.1 == g.nextReg < out.0.nextReg
  {
    (Emit(Emit(g.(nextReg := g.nextReg + 2), LoadConst(g.nextReg + 1, 0)), inst), g.nextReg)
  }

  function GenExpr(g: Gen, e: Expr): (out: (Gen, Reg))
    ensures ExprGrows(g, out.0)
    ensures !out.0.failed ==> out.1 < out.0.nextReg
    decreases e
  {
    match e
    case IntExpr(i) => (Emit(g.(nextReg := g.nextReg + 1), LoadConst(g.nextReg, i)), g.nextReg)
    case BoolExpr(b) => (Emit(g.(nextReg := g.nextReg + 1), LoadConst(g.nextReg, if b then 1 else 0)), g.nextReg)
    case VarExpr(x) =>
      (match Resolve(g, x)
       case None => (Error(g), 0)
       case Some(l) => (Emit(g.(nextReg := g.nextReg + 1), LoadLocal(g.nextReg, l)), g.nextReg))
    case BinaryExpr(op, lhs, rhs, k) =>
      var (g1, a) := GenExpr(g, lhs);
      var (g2, b) := GenExpr(g1, rhs);
      (Emit(g2.(nextReg := g2.nextReg + 1), Binary(op, g2.nextReg, a, b, k)), g2.nextReg)
    case NegExpr(x, k) =>
      var (g1, a) := GenExpr(g, x);
      WithZero(g1, Binary(Sub, g1.nextReg, g1.nextReg + 1, a, k))
    case NotExpr(x, k) =>
      var (g1, a) := GenExpr(g, x);
      WithZero(g1, Binary(Eq, g1.nextReg, a, g1.nextReg + 1, k))
    case AssignExpr(x, r) =>
      (match Resolve(g, x)
       case None => (Error(g), 0)
       case Some(l) =>
         var (g1, v) := GenExpr(g, r);
         (Emit(g1, StoreLocal(l, v)), v))
  }

  // --- statements ---

  function WithName(scope: map<string, Local>, name: string, l: Local): map<string, Local> {
    scope[name := l]
  }

  /** The new local is bound before the initialiser is generated. */
  function BindLocal(g: Gen, name: string): Gen
    requires |g.scopes| > 0
  {
    var top := |g.scopes| - 1;
    g.(nextLocal := g.nextLocal + 1, scopes := g.scopes[top := WithName(g.scopes[top], name, g.nextLocal)])
  }

  function GenReturn(g: Gen, result: Option<Expr>): (g': Gen)
    ensures Grows(g, g')
  {
    match result
    case Some(e) =>
      var (g1, v) := GenExpr(g, e);
      Emit(g1, Return(v)).(terminated := true)
    case None =>
      var g1 := Emit(g.(nextReg := g.nextReg + 1), LoadConst(g.nextReg, 0));
      Emit(g1, Return(g.nextReg)).(terminated := true)
  }

  function GenJump(g: Gen, labels: seq<Label>): (g': Gen)
    ensures Grows(g, g')
  {
    if labels == [] then Error(g)
    else Emit(g, Jump(labels[|labels| - 1])).(terminated := true)
  }

  /** A jump to the end of the statement unless control cannot get here. */
  function JumpUnlessTerminated(g: Gen, l: Label): (g': Gen)
    ensures Grows(g, g')
  {
    if g.terminated then g else Emit(g, Jump(l))
  }

  function GenStmt(g: Gen, s: Stmt): (g': Gen)
    requires |g.scopes| > 0
    ensures Grows(g, g')
    ensures !s.VarDecl? ==> g'.scopes == g.scopes
    decreases s, 1
  {
    if g.terminated then g
    else
      match s
      case ExprStmt(e) => GenExpr(g, e).0
      case VarDecl(x, init) =>
        var g1 := BindLocal(g, x);
        (match init
         case None => g1
         case Some(e) =>
           var (g2, v) := GenExpr(g1, e);
           Emit(g2, StoreLocal(g.nextLocal, v)))
      case ReturnStmt(r) => GenReturn(g, r)
      case BreakStmt => GenJump(g, g.breaks)
      case ContinueStmt => GenJump(g, g.continues)
      case IfStmt(_, _, _) => GenIf(g, s)
      case WhileStmt(_, _, _) => GenWhile(g, s)
      case BlockStmt(b) => GenBlock(g, b)
  }

  /** One conditional branch: test, branch, label, block, jump to the end. The
      flag of the result says whether the block terminated. */
  function GenArm(g: Gen, cond: Reg, thenLabel: Label, elseLabel: Label, end: Label, t: Block): (g': Gen)
    ensures Grows(g, g') && g'.scopes == g.scopes
    decreases t, 3
  {
    var g1 := Emit(Emit(g, Branch(cond, thenLabel, elseLabel)), LabelMark(thenLabel)).(terminated := false);
    JumpUnlessTerminated(GenBlock(g1, t), end)
  }

  function GenIf(g: Gen, s: Stmt): (g': Gen)
    requires s.IfStmt?
    ensures Grows(g, g') && g'.scopes == g.scopes
    decreases s, 0
  {
    var els := s.els;
    var (g1, cond) := GenExpr(g, s.cond);
    var thenLabel := g1.nextLabel;
    var end := g1.nextLabel + 1;
    var elseLabel := if els.NoElse? then end else g1.nextLabel + 2;
    var g2 := g1.(nextLabel := if els.NoElse? then g1.nextLabel + 2 else g1.nextLabel + 3);
    var g3 := GenArm(g2, cond, thenLabel, elseLabel, end, s.thenBlock);
    var (g4, all, default) := GenElse(StartElse(g3, els), els, elseLabel, end);
    Emit(g4, LabelMark(end)).(terminated := default && g3.terminated && all)
  }

  /** The flag is cleared for the first else-if, not again for the others. */
  function StartElse(g: Gen, els: Else): Gen {
    g.(terminated := g.terminated && !els.ElseIf?)
  }

  /** The else-if chain: the state, whether every branch terminated, and whether
      there is a plain else block. */
  function GenElse(g: Gen, els: Else, label_: Label, end: Label): (out: (Gen, bool, bool))
    ensures Grows(g, out.0) && out.0.scopes == g.scopes
    decreases els, 5
  {
    if els.NoElse? then (g, true, false) else ElseAfterLabel(Emit(g, LabelMark(label_)), els, end)
  }

  function ElseAfterLabel(g: Gen, els: Else, end: Label): (out: (Gen, bool, bool))
    ensures Grows(g, out.0) && out.0.scopes == g.scopes
    decreases els, 4
  {
    match els
    case NoElse => (g, true, false)
    case ElseIf(c, t, rest) =>
      var (g1, cond) := GenExpr(g, c);
      var thenLabel := g1.nextLabel;
      var next := if rest.NoElse? then end else g1.nextLabel + 1;
      var g2 := g1.(nextLabel := if rest.NoElse? then g1.nextLabel + 1 else g1.nextLabel + 2);
      var g3 := GenArm(g2, cond, thenLabel, next, end, t);
      var (g4, all, default) := GenElse(g3, rest, next, end);
      (g4, g3.terminated && all, default)
    case ElseBlock(b) =>
      var g1 := GenBlock(g.(terminated := false), b);
      (JumpUnlessTerminated(g1, end), g1.terminated, true)
  }

  function GenWhile(g: Gen, s: Stmt): (g': Gen)
    requires s.WhileStmt?
    ensures Grows(g, g') && g'.scopes == g.scopes
    decreases s, 0
  {
    var head := LoopHead(g, s.cond, s.forStep);
    var body := GenBlock(head, s.body).(breaks := g.breaks, continues := g.continues);
    LoopTail(body, s.forStep, CondLabel(g), ContinueLabel(g, s.forStep), EndLabel(g))
  }

  function CondLabel(g: Gen): Label {
    g.nextLabel
  }

  function BodyLabel(g: Gen): Label {
    g.nextLabel + 1
  }

  function EndLabel(g: Gen): Label {
    g.nextLabel + 2
  }

  /** In a `for` loop `continue` goes to the step, otherwise to the condition. */
  function ContinueLabel(g: Gen, step: Option<Expr>): Label {
    if step.Some? then g.nextLabel + 3 else g.nextLabel
  }

  /** The jump to the condition, with the labels taken. */
  function LoopEntry(g: Gen, step: Option<Expr>): (g': Gen)
    ensures Grows(g, g') && g'.scopes == g.scopes
  {
    Emit(g.(nextLabel := if step.Some? then g.nextLabel + 4 else g.nextLabel + 3), Jump(CondLabel(g)))
  }

  /** The condition and the start of the body, with the label stacks pushed. */
  function LoopHead(g: Gen, c: Expr, step: Option<Expr>): (g': Gen)
    ensures Grows(g, g'.(breaks := g.breaks, continues := g.continues)) && g'.scopes == g.scopes
  {
    var (g1, cond) := GenExpr(Emit(LoopEntry(g, step), LabelMark(CondLabel(g))), c);
    Emit(Emit(g1, Branch(cond, BodyLabel(g), EndLabel(g))), LabelMark(BodyLabel(g)))
      .(terminated := false, breaks := g.breaks + [EndLabel(g)], continues := g.continues + [ContinueLabel(g, step)])
  }

  /** The step, if any, the jump back and the end label. */
  function LoopTail(g: Gen, step: Option<Expr>, cond: Label, cont: Label, end: Label): (g': Gen)
    ensures Grows(g, g') && g'.scopes == g.scopes
  {
    var g1 := match step
      case None => g
      case Some(e) => GenExpr(Emit(g, LabelMark(cont)), e).0.(terminated := false);
    Emit(JumpUnlessTerminated(g1, cond), LabelMark(end)).(terminated := false)
  }

  function GenBlock(g: Gen, b: Block): (g': Gen)
    ensures Grows(g, g') && g'.scopes == g.scopes
    decreases b, 2
  {
    var g1 := GenStmts(g.(terminated := false, scopes := g.scopes + [map[]]), b);
    g1.(scopes := g1.scopes[..|g.scopes|], terminated := g.terminated || g1.terminated)
  }

  function GenStmts(g: Gen, b: Block): (g': Gen)
    requires |g.scopes| > 0
    ensures Grows(g, g')
    decreases b, 0
  {
    if b == [] || g.terminated then g
    else GenStmts(GenStmt(g, b[0]), b[1..])
  }

  // --- functions ---

  /** Arguments take the first locals, in order. */
  function ArgScope(names: seq<string>, from: nat, acc: map<string, Local>): map<string, Local>
    requires from <= |names|
    decreases |names| - from
  {
    if from == |names| then acc else ArgScope(names, from + 1, acc[names[from] := from])
  }

  /** The state in which the body of a function is generated; labels go on from
      the previous function. */
  function StartFunc(f: Func, firstLabel: nat): Gen {
    Gen([], 0, |f.args|, firstLabel, false, [], [], [ArgScope(f.args, 0, map[])], false)
  }

  /** `gen_function`: a void function returns 0 at its end; falling off the end
      of another function is an error. */
  function GenFunc(f: Func, firstLabel: nat): Gen {
    var g := GenBlock(StartFunc(f, firstLabel), f.body);
    if g.terminated then g
    else if f.isVoid then GenReturn(g, None)
    else Error(g)
  }

  /** Whether a function is marked as the entry. */
  function MarkedEntry(attributes: seq<Attribute>): bool {
    attributes != []
    && (attributes[|attributes| - 1].EntryAttribute? || MarkedEntry(attributes[..|attributes| - 1]))
  }

  /** The symbol of the last export attribute; none is the empty string. */
  function ExportSymbol(attributes: seq<Attribute>): string {
    if attributes == [] then ""
    else
      match attributes[|attributes| - 1]
      case ExportAttribute(symbol) => symbol
      case _ => ExportSymbol(attributes[..|attributes| - 1])
  }

  /** The IR function the generator leaves in the program. */
  function Lowered(f: Func, id: nat, firstLabel: nat): Fn {
    var g := GenFunc(f, firstLabel);
    Fn(id, f.name, |f.args|, g.nextLocal, g.nextReg, 0, g.body, false, MarkedEntry(f.attributes), -1,
       ExportSymbol(f.attributes), "")
  }

  /** The functions of a program are lowered one after another; labels are
      numbered through. */
  function LowerAll(fs: seq<Func>, id: nat, firstLabel: nat): (out: seq<Fn>)
    ensures |out| == |fs|
  {
    if fs == [] then []
    else [Lowered(fs[0], id, firstLabel)] + LowerAll(fs[1..], id + 1, GenFunc(fs[0], firstLabel).nextLabel)
  }

  /** The first label of function `k`. */
  function FirstLabel(fs: seq<Func>, k: nat, firstLabel: nat): nat
    requires k <= |fs|
  {
    if k == 0 then firstLabel else FirstLabel(fs[1..], k - 1, GenFunc(fs[0], firstLabel).nextLabel)
  }

  function LowerProgram(fs: seq<Func>): Program {
    Program(LowerAll(fs, 0, 0), [], [])
  }

  lemma {:induction false} LowerAllAt(fs: seq<Func>, id: nat, firstLabel: nat, k: nat)
    requires k < |fs|
    ensures LowerAll(fs, id, firstLabel)[k] == Lowered(fs[k], id + k, FirstLabel(fs, k, firstLabel))
  {
    if k > 0 {
      LowerAllAt(fs[1..], id + 1, GenFunc(fs[0], firstLabel).nextLabel, k - 1);
    }
  }
}
