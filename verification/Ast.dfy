/** The structured programs that are lowered, and what they do.

    This is the fragment of one function with integer and boolean values and no
    implicit conversion: every operator carries the kind its operands share. */
module Ast {
  import opened Words

  datatype Expr =
    | IntExpr(value: Int64)
    | BoolExpr(b: bool)
    | VarExpr(name: string)
    | BinaryExpr(op: BinaryOp, lhs: Expr, rhs: Expr, kind: TypeKind)
    | NegExpr(operand: Expr, kind: TypeKind)
    | NotExpr(operand: Expr, kind: TypeKind)
    | AssignExpr(name: string, rhs: Expr)

  type Block = seq<Stmt>

  datatype Stmt =
    | ExprStmt(expr: Expr)
    | VarDecl(name: string, init: Option<Expr>)
    | ReturnStmt(result: Option<Expr>)
    | BreakStmt
    | ContinueStmt
    | IfStmt(cond: Expr, thenBlock: Block, els: Else)
    | WhileStmt(cond: Expr, body: Block, forStep: Option<Expr>)
    | BlockStmt(body: Block)

  /** What follows the first branch of an `if`: the else-if chain and the else block. */
  datatype Else =
    | NoElse
    | ElseIf(cond: Expr, thenBlock: Block, rest: Else)
    | ElseBlock(body: Block)

  /** `@entry` and `@export("...")` */
  datatype Attribute = EntryAttribute | ExportAttribute(symbol: string)

  datatype Func = Func(name: string, args: seq<string>, isVoid: bool, body: Block, attributes: seq<Attribute>)

  /** Variables by scope, innermost last; `None` is declared but not initialised. */
  type Store = seq<map<string, Option<Word>>>

  /** The innermost scope that declares `name`. */
  function FindScope<T>(scopes: seq<map<string, T>>, name: string): (r: Option<nat>)
    ensures r.Some? ==> r.value < |scopes| && name in scopes[r.value]
    ensures r.Some? ==> forall i :: r.value < i < |scopes| ==> name !in scopes[i]
    ensures r.None? ==> forall i :: 0 <= i < |scopes| ==> name !in scopes[i]
  {
    if |scopes| == 0 then None
    else if name in scopes[|scopes| - 1] then Some(|scopes| - 1)
    else FindScope(scopes[..|scopes| - 1], name)
  }

  function SetVar(st: Store, name: string, v: Word): Option<Store> {
    match FindScope(st, name)
    case None => None
    case Some(i) => Some(st[i := st[i][name := Some(v)]])
  }

  /** The value of an expression and the store after its assignments. Operands
      are evaluated left to right; `&&` and `||` evaluate both sides. */
  datatype Eval = Val(v: Word, st: Store) | Wrong

  function EvalBinary(op: BinaryOp, kind: TypeKind, a: Word, b: Word): Option<Word> {
    if IsScalarIntKind(kind) then EvalInt(op, kind, a, b) else None
  }

  function EvalExpr(e: Expr, st: Store): Eval {
    match e
    case IntExpr(i) => Val(Unsigned(i), st)
    case BoolExpr(b) => Val(FromBool(b), st)
    case VarExpr(x) =>
      (match FindScope(st, x)
       case None => Wrong
       case Some(i) => if st[i][x].Some? then Val(st[i][x].value, st) else Wrong)
    case BinaryExpr(op, l, r, k) =>
      (match EvalExpr(l, st)
       case Wrong => Wrong
       case Val(a, st1) =>
         match EvalExpr(r, st1)
         case Wrong => Wrong
         case Val(b, st2) =>
           match EvalBinary(op, k, a, b)
           case None => Wrong
           case Some(v) => Val(v, st2))
    case NegExpr(x, k) =>
      (match EvalExpr(x, st)
       case Wrong => Wrong
       case Val(a, st1) =>
         match EvalBinary(Sub, k, 0, a)
         case None => Wrong
         case Some(v) => Val(v, st1))
    case NotExpr(x, k) =>
      (match EvalExpr(x, st)
       case Wrong => Wrong
       case Val(a, st1) =>
         match EvalBinary(Eq, k, a, 0)
         case None => Wrong
         case Some(v) => Val(v, st1))
    case AssignExpr(x, r) =>
      (match EvalExpr(r, st)
       case Wrong => Wrong
       case Val(v, st1) =>
         match SetVar(st1, x, v)
         case None => Wrong
         case Some(st2) => Val(v, st2))
  }

  /** How a statement ends. `Fail` is a run-time error; `Cut` means the given
      number of loop iterations was not enough. */
  datatype Result =
    | Normal(st: Store)
    | Broke(st: Store)
    | Continued(st: Store)
    | Returned(v: Word)
    | Fail
    | Cut

  function Pop(r: Result): Result {
    match r
    case Normal(st) => if |st| > 0 then Normal(st[..|st| - 1]) else Fail
    case Broke(st) => if |st| > 0 then Broke(st[..|st| - 1]) else Fail
    case Continued(st) => if |st| > 0 then Continued(st[..|st| - 1]) else Fail
    case _ => r
  }

  /** The variable is declared after its initialiser has been evaluated. */
  function Declare(st: Store, name: string, v: Option<Word>): Result {
    if |st| == 0 then Fail else Normal(st[|st| - 1 := st[|st| - 1][name := v]])
  }

  function ExecStmt(s: Stmt, st: Store, n: nat): Result
    decreases n, s, 1
  {
    match s
    case ExprStmt(e) =>
      (match EvalExpr(e, st)
       case Wrong => Fail
       case Val(_, st1) => Normal(st1))
    case VarDecl(x, None) => Declare(st, x, None)
    case VarDecl(x, Some(e)) =>
      (match EvalExpr(e, st)
       case Wrong => Fail
       case Val(v, st1) => Declare(st1, x, Some(v)))
    case ReturnStmt(None) => Returned(0)
    case ReturnStmt(Some(e)) =>
      (match EvalExpr(e, st)
       case Wrong => Fail
       case Val(v, _) => Returned(v))
    case BreakStmt => Broke(st)
    case ContinueStmt => Continued(st)
    case IfStmt(c, t, els) =>
      (match EvalExpr(c, st)
       case Wrong => Fail
       case Val(v, st1) => if v != 0 then ExecBlock(t, st1, n) else ExecElse(els, st1, n))
    case WhileStmt(c, b, step) => ExecLoop(c, b, step, st, n)
    case BlockStmt(b) => ExecBlock(b, st, n)
  }

  function ExecElse(els: Else, st: Store, n: nat): Result
    decreases n, els, 1
  {
    match els
    case NoElse => Normal(st)
    case ElseIf(c, t, rest) =>
      (match EvalExpr(c, st)
       case Wrong => Fail
       case Val(v, st1) => if v != 0 then ExecBlock(t, st1, n) else ExecElse(rest, st1, n))
    case ElseBlock(b) => ExecBlock(b, st, n)
  }

  function ExecBlock(b: Block, st: Store, n: nat): Result
    decreases n, b, 1
  {
    Pop(ExecStmts(b, st + [map[]], n))
  }

  function ExecStmts(b: Block, st: Store, n: nat): Result
    decreases n, b, 0
  {
    if b == [] then Normal(st)
    else
      match ExecStmt(b[0], st, n)
      case Normal(st1) => ExecStmts(b[1..], st1, n)
      case other => other
  }

  /** One turn after another; `continue` in a `for` still runs the step. */
  function ExecLoop(c: Expr, b: Block, step: Option<Expr>, st: Store, n: nat): Result
    decreases n, b, 2
  {
    match EvalExpr(c, st)
    case Wrong => Fail
    case Val(v, st1) =>
      if v == 0 then Normal(st1)
      else
        match ExecBlock(b, st1, n)
        case Normal(st2) => NextTurn(c, b, step, st2, n)
        case Continued(st2) => NextTurn(c, b, step, st2, n)
        case Broke(st2) => Normal(st2)
        case other => other
  }

  function NextTurn(c: Expr, b: Block, step: Option<Expr>, st: Store, n: nat): Result
    decreases n, b, 0
  {
    if n == 0 then Cut
    else
      match step
      case None => ExecLoop(c, b, step, st, n - 1)
      case Some(e) =>
        match EvalExpr(e, st)
        case Wrong => Fail
        case Val(_, st1) => ExecLoop(c, b, step, st1, n - 1)
  }

  function BindArgs(names: seq<string>, values: seq<Word>, from: nat, acc: map<string, Option<Word>>): map<string, Option<Word>>
    requires from <= |names| == |values|
    decreases |names| - from
  {
    if from == |names| then acc
    else BindArgs(names, values, from + 1, acc[names[from] := Some(values[from])])
  }

  /** A call of the function. A void function returns 0 at its end. */
  function ExecFunc(f: Func, args: seq<Word>, n: nat): Result
    requires |args| == |f.args|
  {
    match ExecBlock(f.body, [BindArgs(f.args, args, 0, map[])], n)
    case Returned(v) => Returned(v)
    case Normal(_) => if f.isVoid then Returned(0) else Fail
    case Cut => Cut
    case _ => Fail
  }
}
