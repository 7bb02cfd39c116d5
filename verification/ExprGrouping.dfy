/** How operators group, said on tokens alone. */
module ExprGrouping {
  import opened Words
  import opened ExprSyntax
  import opened ExprParsing
  import opened ExprRoundTrip

  // --- the tokens ---

  /** The operators of tier `n` and what they stand for; a higher tier binds tighter. */
  predicate InTier(n: nat, t: Token, op: BinaryOp) {
    match n
    case 0 => t == TPipePipe && op == LogicOr
    case 1 => t == TAmpAmp && op == LogicAnd
    case 2 => t == TPipe && op == BitOr
    case 3 => t == TAmp && op == BitAnd
    case 4 => (t == TEqEq && op == BinaryOp.Eq) || (t == TNeq && op == NotEq)
    case 5 => (t == TLt && op == Lt) || (t == TLte && op == Lte) || (t == TGt && op == Gt) || (t == TGte && op == Gte)
    case 6 => (t == TPlus && op == Add) || (t == TMinus && op == Sub)
    case 7 => (t == TStar && op == Mul) || (t == TSlash && op == Div)
    case _ => false
  }

  /** An operand of one token. */
  predicate Atom(t: Token, e: Expr) {
    || (t.TNumber? && e == Int(Signed(t.inum)))
    || (t.TIdent? && e == Var(t.text))
    || (t == TTrue && e == Expr.Bool(true))
    || (t == TFalse && e == Expr.Bool(false))
    || (t == TNullPtr && e == Null)
  }

  predicate Closes(t: Token) {
    t == TSemi || t == TComma || t == TRParen || t == TRBracket || t == TRBrace || t == TEof
  }

  /** If `t` is a `<`, what follows is not read as type arguments. */
  predicate Plain(t: Token, after: seq<Token>) {
    t == TLt ==> !OpensTypeArgs(after)
  }

  // --- single steps ---

  lemma TierLevel(n: nat, t: Token, op: BinaryOp)
    requires InTier(n, t, op)
    ensures Precedence(t) == n + 2 && OpOf(t) == op && t != TEq && CompoundOp(t).None?
  {
    hide Precedence, OpOf, CompoundOp;
    TierPrecedence(n, t, op);
    TierOp(n, t, op);
  }

  lemma TierPrecedence(n: nat, t: Token, op: BinaryOp)
    requires InTier(n, t, op)
    ensures Precedence(t) == n + 2
  {
    LowLevels();
    HighLevels();
    hide Precedence;
  }

  lemma LowLevels()
    ensures Precedence(TPipePipe) == 2 && Precedence(TAmpAmp) == 3 && Precedence(TPipe) == 4 && Precedence(TAmp) == 5
    ensures Precedence(TEqEq) == 6 && Precedence(TNeq) == 6
  {
  }

  lemma HighLevels()
    ensures Precedence(TLt) == 7 && Precedence(TLte) == 7 && Precedence(TGt) == 7 && Precedence(TGte) == 7
    ensures Precedence(TPlus) == 8 && Precedence(TMinus) == 8 && Precedence(TStar) == 9 && Precedence(TSlash) == 9
  {
  }

  lemma TierOp(n: nat, t: Token, op: BinaryOp)
    requires InTier(n, t, op)
    ensures OpOf(t) == op && t != TEq && CompoundOp(t).None?
  {
    LowOps();
    HighOps();
    NotCompound();
    hide OpOf, CompoundOp;
  }

  lemma NotCompound()
    ensures CompoundOp(TPipePipe).None? && CompoundOp(TAmpAmp).None? && CompoundOp(TPipe).None? && CompoundOp(TAmp).None?
    ensures CompoundOp(TEqEq).None? && CompoundOp(TNeq).None? && CompoundOp(TLt).None? && CompoundOp(TLte).None?
    ensures CompoundOp(TGt).None? && CompoundOp(TGte).None? && CompoundOp(TPlus).None? && CompoundOp(TMinus).None?
    ensures CompoundOp(TStar).None? && CompoundOp(TSlash).None?
  {
  }

  lemma LowOps()
    ensures OpOf(TPipePipe) == LogicOr && OpOf(TAmpAmp) == LogicAnd && OpOf(TPipe) == BitOr && OpOf(TAmp) == BitAnd
    ensures OpOf(TEqEq) == BinaryOp.Eq && OpOf(TNeq) == NotEq
  {
  }

  lemma HighOps()
    ensures OpOf(TLt) == Lt && OpOf(TLte) == Lte && OpOf(TGt) == Gt && OpOf(TGte) == Gte
    ensures OpOf(TPlus) == Add && OpOf(TMinus) == Sub && OpOf(TStar) == Mul && OpOf(TSlash) == Div
  {
  }

  lemma TierCalm(n: nat, t: Token, op: BinaryOp)
    requires InTier(n, t, op)
    ensures !PostfixToken(t) && t != TColonColon
  {
  }

  lemma CloseStops(t: Token)
    requires Closes(t)
    ensures Precedence(t) < 0 && !PostfixToken(t) && t != TColonColon && t != TLt
  {
  }

  lemma AtomPrefix(t: Token, e: Expr, rest: seq<Token>)
    requires Atom(t, e) && Head(rest) != TColonColon
    ensures ParsePrefix([t] + rest) == Ok(e, rest)
  {
    hide ParseExpr, ParseUnary, Signed;
    HeadTail(t, rest);
  }

  lemma OperandExpr(ts: seq<Token>, e: Expr, rest: seq<Token>, level: nat)
    requires ParseOperand(ts) == Ok(e, rest)
    ensures ParseExpr(ts, level) == ExprLoop(e, rest, level)
  {
    hide ParseOperand, ExprLoop;
  }

  lemma PrefixOperand(ts: seq<Token>, e: Expr, rest: seq<Token>)
    requires ParsePrefix(ts) == Ok(e, rest) && Calm(rest) && NextClean(rest)
    ensures ParseOperand(ts) == Ok(e, rest)
  {
    hide ParsePrefix, ParsePostfix, OpensTypeArgs;
    CalmStops(e, rest);
  }

  /** A single token in front of an operator or a closing token. */
  lemma AtomRead(t: Token, e: Expr, rest: seq<Token>, level: nat)
    requires Atom(t, e) && Calm(rest) && NextClean(rest)
    ensures ParseExpr([t] + rest, level) == ExprLoop(e, rest, level)
  {
    hide *;
    CalmHead(rest);
    AtomPrefix(t, e, rest);
    PrefixOperand([t] + rest, e, rest);
    OperandExpr([t] + rest, e, rest, level);
  }

  lemma CalmHead(rest: seq<Token>)
    requires Calm(rest)
    ensures Head(rest) != TColonColon
  {
  }

  lemma BeforeOperator(n: nat, t: Token, op: BinaryOp, after: seq<Token>)
    requires InTier(n, t, op) && Plain(t, after)
    ensures Calm([t] + after) && NextClean([t] + after)
  {
    hide OpensTypeArgs, InTier;
    TierCalm(n, t, op);
    HeadTail(t, after);
  }

  lemma BeforeClose(rest: seq<Token>)
    requires Closes(Head(rest))
    ensures Calm(rest) && NextClean(rest)
  {
    hide OpensTypeArgs, Closes;
    CloseStops(Head(rest));
  }

  /** The last operand, in front of a closing token. */
  lemma LastOperand(t: Token, e: Expr, rest: seq<Token>, level: nat)
    requires Atom(t, e) && Closes(Head(rest))
    ensures ParseExpr([t] + rest, level) == Ok(e, rest)
  {
    hide *;
    BeforeClose(rest);
    AtomRead(t, e, rest, level);
    CloseStops(Head(rest));
    LowStops(e, rest, level);
  }

  /** One operator of tier `n` and its right side, if the loop goes down to there. */
  lemma OneOperator(l: Expr, n: nat, t: Token, op: BinaryOp, r: Expr, ts: seq<Token>, rest: seq<Token>, level: nat)
    requires InTier(n, t, op) && level <= n + 2 && ParseExpr(ts, n + 3) == Ok(r, rest)
    ensures ExprLoop(l, [t] + ts, level) == ExprLoop(Binary(op, l, r), rest, level)
  {
    hide *;
    TierLevel(n, t, op);
    LoopBinary(l, r, t, ts, rest, level);
  }

  /** The loop stops in front of an operator of a looser tier. */
  lemma StopsBefore(e: Expr, n: nat, t: Token, op: BinaryOp, after: seq<Token>, level: nat)
    requires InTier(n, t, op) && n + 2 < level
    ensures ExprLoop(e, [t] + after, level) == Ok(e, [t] + after)
  {
    hide *;
    TierLevel(n, t, op);
    HeadTail(t, after);
    LowStops(e, [t] + after, level);
  }

  /** `x q rest` where the loop goes down to the tier of `q`. */
  lemma AtomOperator(tx: Token, x: Expr, n: nat, q: Token, op: BinaryOp, after: seq<Token>, level: nat)
    requires Atom(tx, x) && InTier(n, q, op) && Plain(q, after)
    ensures ParseExpr([tx] + ([q] + after), level) == ExprLoop(x, [q] + after, level)
  {
    hide *;
    BeforeOperator(n, q, op, after);
    AtomRead(tx, x, [q] + after, level);
  }

  // --- two operators ---

  /** `x p y`, in front of a closing token. */
  lemma OneBinary(tx: Token, x: Expr, n: nat, p: Token, op: BinaryOp, ty: Token, y: Expr, rest: seq<Token>, level: nat)
    requires Atom(tx, x) && Atom(ty, y) && InTier(n, p, op) && level <= n + 2
    requires Closes(Head(rest)) && Plain(p, [ty] + rest)
    ensures ParseExpr([tx] + ([p] + ([ty] + rest)), level) == Ok(Binary(op, x, y), rest)
  {
    hide *;
    AtomOperator(tx, x, n, p, op, [ty] + rest, level);
    LastOperand(ty, y, rest, n + 3);
    OneOperator(x, n, p, op, y, [ty] + rest, rest, level);
    CloseStops(Head(rest));
    LowStops(Binary(op, x, y), rest, level);
  }

  /** `x p y q z` with `q` of a tighter tier is `x p (y q z)`. */
  lemma TighterRight(tx: Token, x: Expr, i: nat, p: Token, op: BinaryOp, ty: Token, y: Expr, j: nat, q: Token, oq: BinaryOp,
                     tz: Token, z: Expr, rest: seq<Token>)
    requires Atom(tx, x) && Atom(ty, y) && Atom(tz, z) && InTier(i, p, op) && InTier(j, q, oq) && i < j
    requires Closes(Head(rest)) && Plain(q, [tz] + rest) && Plain(p, [ty] + ([q] + ([tz] + rest)))
    ensures ParseExpr([tx] + ([p] + ([ty] + ([q] + ([tz] + rest)))), 0) == Ok(Binary(op, x, Binary(oq, y, z)), rest)
  {
    hide *;
    var right := [ty] + ([q] + ([tz] + rest));
    AtomOperator(tx, x, i, p, op, right, 0);
    OneBinary(ty, y, j, q, oq, tz, z, rest, i + 3);
    OneOperator(x, i, p, op, Binary(oq, y, z), right, rest, 0);
    CloseStops(Head(rest));
    LowStops(Binary(op, x, Binary(oq, y, z)), rest, 0);
  }

  /** `x q y p z` with `q` of a tighter or the same tier is `(x q y) p z`. */
  lemma TighterLeft(tx: Token, x: Expr, j: nat, q: Token, oq: BinaryOp, ty: Token, y: Expr, i: nat, p: Token, op: BinaryOp,
                    tz: Token, z: Expr, rest: seq<Token>)
    requires Atom(tx, x) && Atom(ty, y) && Atom(tz, z) && InTier(i, p, op) && InTier(j, q, oq) && i <= j
    requires Closes(Head(rest)) && Plain(p, [tz] + rest) && Plain(q, [ty] + ([p] + ([tz] + rest)))
    ensures ParseExpr([tx] + ([q] + ([ty] + ([p] + ([tz] + rest)))), 0) == Ok(Binary(op, Binary(oq, x, y), z), rest)
  {
    hide *;
    var tail := [p] + ([tz] + rest);
    AtomOperator(tx, x, j, q, oq, [ty] + tail, 0);
    AtomOperator(ty, y, i, p, op, [tz] + rest, j + 3);
    StopsBefore(y, i, p, op, [tz] + rest, j + 3);
    OneOperator(x, j, q, oq, y, [ty] + tail, tail, 0);
    LastOperand(tz, z, rest, i + 3);
    OneOperator(Binary(oq, x, y), i, p, op, z, [tz] + rest, rest, 0);
    CloseStops(Head(rest));
    LowStops(Binary(op, Binary(oq, x, y), z), rest, 0);
  }

  // --- assignment ---

  lemma LoopAssign(l: Expr, r: Expr, ts: seq<Token>, rest: seq<Token>)
    requires ParseExpr(ts, 1) == Ok(r, rest)
    ensures ExprLoop(l, [TEq] + ts, 0) == if l.Var? || l.Field? || l.Index? then Ok(Assign(l, r), rest) else Wrong
    ensures l.Var? ==> ExprLoop(l, [TEq] + ts, 1) == Ok(Assign(l, r), rest)
  {
    hide ParseExpr;
    HeadTail(TEq, ts);
  }

  /** An identifier in front of `=` or the like. */
  lemma NameRead(x: string, t: Token, ts: seq<Token>, level: nat)
    requires t == TEq || t == TPlusEq || t == TMinusEq || t == TStarEq || t == TSlashEq || t == TAmpEq || t == TPipeEq
    ensures ParseExpr([TIdent(x)] + ([t] + ts), level) == ExprLoop(Var(x), [t] + ts, level)
  {
    hide ParseExpr, ExprLoop, OpensTypeArgs;
    HeadTail(t, ts);
    AtomRead(TIdent(x), Var(x), [t] + ts, level);
  }

  /** `x = y p z` assigns the whole right side. */
  lemma AssignLoosest(x: string, ty: Token, y: Expr, n: nat, p: Token, op: BinaryOp, tz: Token, z: Expr, rest: seq<Token>)
    requires Atom(ty, y) && Atom(tz, z) && InTier(n, p, op) && Closes(Head(rest)) && Plain(p, [tz] + rest)
    ensures ParseExpr([TIdent(x)] + ([TEq] + ([ty] + ([p] + ([tz] + rest)))), 0)
         == Ok(Assign(Var(x), Binary(op, y, z)), rest)
  {
    hide *;
    var right := [ty] + ([p] + ([tz] + rest));
    NameRead(x, TEq, right, 0);
    OneBinary(ty, y, n, p, op, tz, z, rest, 1);
    LoopAssign(Var(x), Binary(op, y, z), right, rest);
  }

  /** `x = y = z` assigns from right to left. */
  lemma AssignRight(x: string, y: string, tz: Token, z: Expr, rest: seq<Token>)
    requires Atom(tz, z) && Closes(Head(rest))
    ensures ParseExpr([TIdent(x)] + ([TEq] + ([TIdent(y)] + ([TEq] + ([tz] + rest)))), 0)
         == Ok(Assign(Var(x), Assign(Var(y), z)), rest)
  {
    hide *;
    var right := [TIdent(y)] + ([TEq] + ([tz] + rest));
    NameRead(x, TEq, right, 0);
    NameRead(y, TEq, [tz] + rest, 1);
    LastOperand(tz, z, rest, 1);
    LoopAssign(Var(y), z, [tz] + rest, rest);
    LoopAssign(Var(x), Assign(Var(y), z), right, rest);
  }

  /** `x p y = z` is an error: the sum, product and so on cannot be assigned. */
  lemma NoTarget(tx: Token, x: Expr, n: nat, p: Token, op: BinaryOp, y: string, tz: Token, z: Expr, rest: seq<Token>)
    requires Atom(tx, x) && Atom(tz, z) && InTier(n, p, op) && Closes(Head(rest))
    requires Plain(p, [TIdent(y)] + ([TEq] + ([tz] + rest)))
    ensures ParseExpr([tx] + ([p] + ([TIdent(y)] + ([TEq] + ([tz] + rest)))), 0) == Wrong
  {
    hide *;
    var tail := [TEq] + ([tz] + rest);
    AtomOperator(tx, x, n, p, op, [TIdent(y)] + tail, 0);
    NameRead(y, TEq, [tz] + rest, n + 3);
    EqStops(Var(y), [tz] + rest, n + 3);
    OneOperator(x, n, p, op, Var(y), [TIdent(y)] + tail, tail, 0);
    LastOperand(tz, z, rest, 1);
    LoopAssign(Binary(op, x, Var(y)), z, [tz] + rest, rest);
  }

  lemma EqStops(e: Expr, ts: seq<Token>, level: nat)
    requires level > 1
    ensures ExprLoop(e, [TEq] + ts, level) == Ok(e, [TEq] + ts)
  {
    hide ExprLoop;
    HeadTail(TEq, ts);
    LowStops(e, [TEq] + ts, level);
  }

  /** The compound assignments. */
  predicate Compound(t: Token, op: BinaryOp) {
    || (t == TPlusEq && op == Add) || (t == TMinusEq && op == Sub) || (t == TStarEq && op == Mul)
    || (t == TSlashEq && op == Div) || (t == TAmpEq && op == BitAnd) || (t == TPipeEq && op == BitOr)
  }

  lemma LoopCompound(l: Expr, t: Token, op: BinaryOp, r: Expr, ts: seq<Token>, rest: seq<Token>)
    requires Compound(t, op) && ParseExpr(ts, 1) == Ok(r, rest)
    ensures ExprLoop(l, [t] + ts, 0) == Ok(Assign(l, Binary(op, l, r)), rest)
  {
    hide ParseExpr;
    HeadTail(t, ts);
  }

  /** `x += y p z` is `x = x + (y p z)`, and so on. */
  lemma CompoundMeans(x: string, t: Token, ot: BinaryOp, ty: Token, y: Expr, n: nat, p: Token, op: BinaryOp, tz: Token, z: Expr,
                      rest: seq<Token>)
    requires Compound(t, ot) && Atom(ty, y) && Atom(tz, z) && InTier(n, p, op)
    requires Closes(Head(rest)) && Plain(p, [tz] + rest)
    ensures ParseExpr([TIdent(x)] + ([t] + ([ty] + ([p] + ([tz] + rest)))), 0)
         == Ok(Assign(Var(x), Binary(ot, Var(x), Binary(op, y, z))), rest)
  {
    hide ParseExpr, ExprLoop, InTier, OpensTypeArgs, Atom, Closes;
    var right := [ty] + ([p] + ([tz] + rest));
    NameRead(x, t, right, 0);
    OneBinary(ty, y, n, p, op, tz, z, rest, 1);
    LoopCompound(Var(x), t, ot, Binary(op, y, z), right, rest);
  }

  /** `x += y`, and so on. */
  lemma CompoundAtom(x: string, t: Token, op: BinaryOp, ty: Token, y: Expr, rest: seq<Token>)
    requires Compound(t, op) && Atom(ty, y) && Closes(Head(rest))
    ensures ParseExpr([TIdent(x)] + ([t] + ([ty] + rest)), 0) == Ok(Assign(Var(x), Binary(op, Var(x), y)), rest)
  {
    hide ParseExpr, ExprLoop, OpensTypeArgs, Atom, Closes;
    NameRead(x, t, [ty] + rest, 0);
    LastOperand(ty, y, rest, 1);
    LoopCompound(Var(x), t, op, y, [ty] + rest, rest);
  }

  /** `x++` is `x = x + 1` and `x--` is `x = x - 1`. */
  lemma StepMeans(x: string, t: Token, op: BinaryOp, rest: seq<Token>)
    requires (t == TPlusPlus && op == Add) || (t == TMinusMinus && op == Sub)
    requires Closes(Head(rest))
    ensures ParseExpr([TIdent(x)] + ([t] + rest), 0) == Ok(Assign(Var(x), Binary(op, Var(x), Int(1))), rest)
  {
    var result := Assign(Var(x), Binary(op, Var(x), Int(1)));
    hide ParseExpr, ExprLoop, OpensTypeArgs, Closes;
    HeadTail(t, rest);
    AtomPrefix(TIdent(x), Var(x), [t] + rest);
    BeforeClose(rest);
    CalmStops(result, rest);
    PostfixStep(x, t, op, rest);
    OperandExpr([TIdent(x)] + ([t] + rest), result, rest, 0);
    CloseStops(Head(rest));
    LowStops(result, rest, 0);
  }

  lemma PostfixStep(x: string, t: Token, op: BinaryOp, rest: seq<Token>)
    requires (t == TPlusPlus && op == Add) || (t == TMinusMinus && op == Sub)
    ensures ParsePostfix(Var(x), [t] + rest) == ParsePostfix(Assign(Var(x), Binary(op, Var(x), Int(1))), rest)
  {
    hide ParseExpr, ParseArgs, ParseType, OpensTypeArgs;
    HeadTail(t, rest);
  }

  /** Only a variable, a field or an element can be stepped. */
  lemma StepTarget(l: Expr, t: Token, ts: seq<Token>)
    requires (t == TPlusPlus || t == TMinusMinus) && !(l.Var? || l.Field? || l.Index?)
    ensures ParsePostfix(l, [t] + ts) == Wrong
  {
    hide ParseExpr, ParseArgs, ParseType, OpensTypeArgs;
    HeadTail(t, ts);
  }

  // --- prefix and postfix ---

  predicate Prefixed(t: Token, op: UnaryOp) {
    (t == TNot && op == Not) || (t == TMinus && op == Neg) || (t == TAmp && op == AddrOf)
  }

  lemma UnaryRead(t: Token, u: UnaryOp, ts: seq<Token>, e: Expr, rest: seq<Token>, level: nat)
    requires Prefixed(t, u) && ParseExpr(ts, 10) == Ok(e, rest) && Calm(rest) && NextClean(rest)
    ensures ParseExpr([t] + ts, level) == ExprLoop(Unary(u, e), rest, level)
  {
    hide ParseExpr, ExprLoop, OpensTypeArgs, Calm, NextClean;
    HeadTail(t, ts);
    PrefixOperand([t] + ts, Unary(u, e), rest);
    OperandExpr([t] + ts, Unary(u, e), rest, level);
  }

  /** `-x p y` is `(-x) p y`: prefix operators bind tighter than all tiers. */
  lemma PrefixTighter(t: Token, u: UnaryOp, tx: Token, x: Expr, n: nat, p: Token, op: BinaryOp, ty: Token, y: Expr, rest: seq<Token>)
    requires Prefixed(t, u) && Atom(tx, x) && Atom(ty, y) && InTier(n, p, op) && Closes(Head(rest)) && Plain(p, [ty] + rest)
    ensures ParseExpr([t] + ([tx] + ([p] + ([ty] + rest))), 0) == Ok(Binary(op, Unary(u, x), y), rest)
  {
    hide *;
    var tail := [p] + ([ty] + rest);
    TierSmall(n, p, op);
    AtomOperator(tx, x, n, p, op, [ty] + rest, 10);
    StopsBefore(x, n, p, op, [ty] + rest, 10);
    BeforeOperator(n, p, op, [ty] + rest);
    UnaryRead(t, u, [tx] + tail, x, tail, 0);
    LastOperand(ty, y, rest, n + 3);
    OneOperator(Unary(u, x), n, p, op, y, [ty] + rest, rest, 0);
    CloseStops(Head(rest));
    LowStops(Binary(op, Unary(u, x), y), rest, 0);
  }

  lemma TierSmall(n: nat, t: Token, op: BinaryOp)
    requires InTier(n, t, op)
    ensures n <= 7
  {
  }

  /** `-x.f` is `-(x.f)`: postfix operators bind tighter than prefix ones. */
  lemma PostfixTighter(t: Token, u: UnaryOp, tx: Token, x: Expr, f: string, rest: seq<Token>)
    requires Prefixed(t, u) && Atom(tx, x) && Closes(Head(rest))
    ensures ParseExpr([t] + ([tx] + ([TDot] + ([TIdent(f)] + rest))), 0) == Ok(Unary(u, Field(x, f)), rest)
  {
    hide ParseExpr, ExprLoop, OpensTypeArgs, Closes, Prefixed, Atom, Calm, NextClean;
    BeforeClose(rest);
    HeadTail(TDot, [TIdent(f)] + rest);
    HeadTail(TIdent(f), rest);
    AtomPrefix(tx, x, [TDot] + ([TIdent(f)] + rest));
    DotField(x, f, rest);
    CalmStops(Field(x, f), rest);
    OperandExpr([tx] + ([TDot] + ([TIdent(f)] + rest)), Field(x, f), rest, 10);
    CloseStops(Head(rest));
    LowStops(Field(x, f), rest, 10);
    UnaryRead(t, u, [tx] + ([TDot] + ([TIdent(f)] + rest)), Field(x, f), rest, 0);
    LowStops(Unary(u, Field(x, f)), rest, 0);
  }

  lemma DotField(x: Expr, f: string, rest: seq<Token>)
    ensures ParsePostfix(x, [TDot] + ([TIdent(f)] + rest)) == ParsePostfix(Field(x, f), rest)
  {
    hide ParseExpr, ParseArgs, ParseType, OpensTypeArgs;
    HeadTail(TDot, [TIdent(f)] + rest);
    HeadTail(TIdent(f), rest);
  }

  // --- type arguments ---

  /** The tokens that may stand in a list of type arguments. */
  predicate Inner(t: Token) {
    || t.TIdent? || t.TBuiltin? || t == TCharType || t == TColonColon || t == TStar || t == TAmp || t == TComma || t == TLt || t == TGt
  }

  /** How many angle brackets are open behind `k` tokens, if `open` were before. */
  function OpenBehind(ts: seq<Token>, open: int, k: nat): int
    requires k <= |ts|
    decreases k
  {
    if k == 0 then open
    else OpenBehind(ts[1..], open + (if ts[0] == TLt then 1 else if ts[0] == TGt then -1 else 0), k - 1)
  }

  /** The bracket that is open first is closed by token `k`, with type arguments in
      front of it and `(` or `{` behind it. */
  ghost predicate ClosedAt(ts: seq<Token>, open: int, k: nat) {
    && k + 1 < |ts| && (ts[k + 1] == TLParen || ts[k + 1] == TLBrace)
    && OpenBehind(ts, open, k + 1) == 0
    && (forall j :: 0 <= j <= k ==> Inner(ts[j]))
    && forall j :: 0 <= j <= k ==> OpenBehind(ts, open, j) > 0
  }

  lemma {:induction false} LooksMeans(ts: seq<Token>, depth: nat)
    requires depth > 0
    ensures LooksGeneric(ts, depth) <==> exists k: nat :: ClosedAt(ts, depth, k)
    decreases |ts|
  {
    hide ClosedAt;
    if ts == [] {
      NoneClosed(ts, depth);
    } else if !Inner(ts[0]) {
      FirstInner(ts, depth);
    } else if ts[0] == TGt && depth == 1 {
      FirstCloses(ts);
    } else {
      var next := depth + (if ts[0] == TLt then 1 else if ts[0] == TGt then -1 else 0);
      LooksMeans(ts[1..], next);
      LooksNext(ts, depth, next);
      if k: nat :| ClosedAt(ts, depth, k) {
        ClosedNext(ts, depth, next, k);
        assert k > 0 && ClosedAt(ts[1..], next, k - 1);
      }
      if k: nat :| ClosedAt(ts[1..], next, k) {
        var k1 := k + 1;
        ClosedNext(ts, depth, next, k1);
        assert ClosedAt(ts, depth, k1);
      }
    }
  }

  lemma NoneClosed(ts: seq<Token>, open: int)
    requires ts == []
    ensures forall k: nat :: !ClosedAt(ts, open, k)
  {
  }

  lemma FirstInner(ts: seq<Token>, depth: nat)
    requires ts != [] && !Inner(ts[0]) && depth > 0
    ensures !LooksGeneric(ts, depth) && forall k: nat :: !ClosedAt(ts, depth, k)
  {
  }

  lemma FirstCloses(ts: seq<Token>)
    requires ts != [] && ts[0] == TGt
    ensures LooksGeneric(ts, 1) <==> exists k: nat :: ClosedAt(ts, 1, k)
  {
    assert OpenBehind(ts, 1, 0) == 1 && OpenBehind(ts, 1, 1) == OpenBehind(ts[1..], 0, 0);
    if LooksGeneric(ts, 1) {
      assert ClosedAt(ts, 1, 0);
    }
    forall k: nat | ClosedAt(ts, 1, k)
      ensures k == 0
    {
    }
  }

  lemma LooksNext(ts: seq<Token>, depth: nat, next: nat)
    requires ts != [] && Inner(ts[0]) && depth > 0 && !(ts[0] == TGt && depth == 1)
    requires next == depth + (if ts[0] == TLt then 1 else if ts[0] == TGt then -1 else 0)
    ensures LooksGeneric(ts, depth) <==> LooksGeneric(ts[1..], next)
  {
  }

  lemma ClosedNext(ts: seq<Token>, depth: nat, next: nat, k: nat)
    requires ts != [] && Inner(ts[0]) && depth > 0 && next > 0
    requires next == depth + (if ts[0] == TLt then 1 else if ts[0] == TGt then -1 else 0)
    ensures ClosedAt(ts, depth, k) <==> k > 0 && ClosedAt(ts[1..], next, k - 1)
  {
    hide Inner;
    var tail := ts[1..];
    forall j: nat | j < |ts|
      ensures OpenBehind(ts, depth, j + 1) == OpenBehind(tail, next, j)
    {
    }
    if k == 0 {
      assert OpenBehind(ts, depth, 1) == next;
    } else {
      if ClosedAt(ts, depth, k) {
        forall j | 0 <= j <= k - 1
          ensures Inner(tail[j]) && OpenBehind(tail, next, j) > 0
        {
          assert tail[j] == ts[j + 1] && OpenBehind(ts, depth, j + 1) > 0;
        }
        assert OpenBehind(ts, depth, k + 1) == OpenBehind(tail, next, k);
      }
      if ClosedAt(tail, next, k - 1) {
        forall j | 0 <= j <= k
          ensures Inner(ts[j]) && OpenBehind(ts, depth, j) > 0
        {
          if j > 0 {
            assert ts[j] == tail[j - 1] && OpenBehind(tail, next, j - 1) > 0;
            assert OpenBehind(ts, depth, j) == OpenBehind(tail, next, j - 1);
          }
        }
        assert OpenBehind(ts, depth, k + 1) == OpenBehind(tail, next, k);
      }
    }
  }

  /** A `<` opens type arguments exactly if a name or type follows and the matching
      `>`, with only such tokens in between, has `(` or `{` behind it. */
  lemma OpensMeans(ts: seq<Token>)
    ensures OpensTypeArgs(ts)
       <==> ts != [] && (ts[0].TIdent? || ts[0].TBuiltin? || ts[0] == TCharType || ts[0] == TStar || ts[0] == TAmp)
            && exists k: nat :: ClosedAt(ts, 1, k)
  {
    hide LooksGeneric, ClosedAt;
    LooksMeans(ts, 1);
  }
}
