/** What the expression parser returns, as functions on the remaining tokens. */
module ExprParsing {
  import opened Words
  import opened ExprSyntax

  /** `Wrong` means an error has been reported; `Beyond` that the parser has met
      a construct outside the model: generic arguments, `{`, `::`, a type in
      place of an expression, a literal of another kind. */
  datatype Parsed<T> = Ok(value: T, rest: seq<Token>) | Wrong | Beyond

  // --- types ---

  function ParseType(ts: seq<Token>): (r: Parsed<Type>)
    ensures r.Ok? ==> |r.rest| < |ts|
  {
    match Head(ts)
    case TStar =>
      (match ParseType(Tail(ts))
       case Ok(t, rest) => Ok(PointerTo(t), rest)
       case other => other)
    case TAmp =>
      (match ParseType(Tail(ts))
       case Ok(t, rest) => Ok(ReferenceTo(t), rest)
       case other => other)
    case TBuiltin(k) => Ok(Builtin(k), Tail(ts))
    case TCharType => Ok(Builtin(U8), Tail(ts))
    case TIdent(_) => Beyond
    case _ => Wrong
  }

  predicate IsTypeToken(t: Token) {
    t.TBuiltin? || t.TCharType? || t.TStar? || t.TAmp?
  }

  /** `looks_like_generic_args`, behind the `<`. */
  predicate LooksGeneric(ts: seq<Token>, depth: nat)
    requires depth > 0
    decreases |ts|
  {
    if ts == [] then false
    else
      match ts[0]
      case TIdent(_) => LooksGeneric(ts[1..], depth)
      case TColonColon => LooksGeneric(ts[1..], depth)
      case TBuiltin(_) => LooksGeneric(ts[1..], depth)
      case TCharType => LooksGeneric(ts[1..], depth)
      case TStar => LooksGeneric(ts[1..], depth)
      case TAmp => LooksGeneric(ts[1..], depth)
      case TComma => LooksGeneric(ts[1..], depth)
      case TLt => LooksGeneric(ts[1..], depth + 1)
      case TGt =>
        if depth == 1 then Head(ts[1..]) == TLParen || Head(ts[1..]) == TLBrace else LooksGeneric(ts[1..], depth - 1)
      case _ => false
  }

  /** The `<` in front of `ts` opens type arguments. */
  predicate OpensTypeArgs(ts: seq<Token>) {
    (Head(ts).TIdent? || IsTypeToken(Head(ts))) && LooksGeneric(ts, 1)
  }

  // --- expressions ---

  /** `parse_expr` */
  function ParseExpr(ts: seq<Token>, level: nat): (r: Parsed<Expr>)
    ensures r.Ok? ==> |r.rest| < |ts|
    decreases |ts|, 4
  {
    match ParseOperand(ts)
    case Ok(e, rest) => ExprLoop(e, rest, level)
    case other => other
  }

  /** `parse_prefix` and `parse_postfix` */
  function ParseOperand(ts: seq<Token>): (r: Parsed<Expr>)
    ensures r.Ok? ==> |r.rest| < |ts|
    decreases |ts|, 3
  {
    match ParsePrefix(ts)
    case Ok(e, rest) => ParsePostfix(e, rest)
    case other => other
  }

  /** The loop of `parse_expr`. */
  function ExprLoop(left: Expr, ts: seq<Token>, level: nat): (r: Parsed<Expr>)
    ensures r.Ok? ==> |r.rest| <= |ts|
    decreases |ts|, 1
  {
    var t := Head(ts);
    var prec := Precedence(t);
    if prec < level then Ok(left, ts)
    else if t == TEq then
      if !Assignable(left) then Wrong
      else
        match ParseExpr(Tail(ts), prec)
        case Ok(right, rest) => Ok(Assign(left, right), rest)
        case other => other
    else if CompoundOp(t).Some? then
      match ParseExpr(Tail(ts), prec)
      case Ok(right, rest) => Ok(Assign(left, Binary(CompoundOp(t).value, left, right)), rest)
      case other => other
    else
      match ParseExpr(Tail(ts), prec + 1)
      case Ok(right, rest) => ExprLoop(Binary(OpOf(t), left, right), rest, level)
      case other => other
  }

  function ParsePrefix(ts: seq<Token>): (r: Parsed<Expr>)
    ensures r.Ok? ==> |r.rest| < |ts|
    decreases |ts|, 2
  {
    match Head(ts)
    case TNumber(n) => Ok(Int(Signed(n)), Tail(ts))
    case TTrue => Ok(Expr.Bool(true), Tail(ts))
    case TFalse => Ok(Expr.Bool(false), Tail(ts))
    case TNullPtr => Ok(Null, Tail(ts))
    case TNot => ParseUnary(Not, Tail(ts))
    case TMinus => ParseUnary(Neg, Tail(ts))
    case TAmp => ParseUnary(AddrOf, Tail(ts))
    case TIdent(x) => if Head(Tail(ts)) == TColonColon then Beyond else Ok(Var(x), Tail(ts))
    case TLParen =>
      (match ParseExpr(Tail(ts), 0)
       case Ok(e, rest) => if Head(rest) == TRParen then Ok(e, Tail(rest)) else Wrong
       case other => other)
    case t => if IsTypeToken(t) || t == TLBrace || t == TOther then Beyond else Wrong
  }

  function ParseUnary(op: UnaryOp, ts: seq<Token>): (r: Parsed<Expr>)
    ensures r.Ok? ==> |r.rest| < |ts|
    decreases |ts|, 5
  {
    match ParseExpr(ts, 10)
    case Ok(e, rest) => Ok(Unary(op, e), rest)
    case other => other
  }

  function ParsePostfix(left: Expr, ts: seq<Token>): (r: Parsed<Expr>)
    ensures r.Ok? ==> |r.rest| <= |ts|
    decreases |ts|, 0
  {
    match Head(ts)
    case TLt => if OpensTypeArgs(Tail(ts)) then Beyond else Ok(left, ts)
    case TLParen =>
      (match ParseArgs(Tail(ts))
       case Ok(args, rest) => ParsePostfix(Call(left, args), rest)
       case Wrong => Wrong
       case Beyond => Beyond)
    case TLBrace => Beyond
    case TLBracket =>
      (match ParseExpr(Tail(ts), 0)
       case Ok(i, rest) => if Head(rest) == TRBracket then ParsePostfix(Index(left, i), Tail(rest)) else Wrong
       case other => other)
    case TDot =>
      (match Head(Tail(ts))
       case TIdent(x) => ParsePostfix(Field(left, x), Tail(Tail(ts)))
       case _ => Wrong)
    case TPlusPlus => if Assignable(left) then ParsePostfix(Step(left, Add), Tail(ts)) else Wrong
    case TMinusMinus => if Assignable(left) then ParsePostfix(Step(left, Sub), Tail(ts)) else Wrong
    case TAs =>
      var kind := if Head(Tail(ts)) == TNot then Bitcast else ValueCast;
      (match ParseType(if kind == Bitcast then Tail(Tail(ts)) else Tail(ts))
       case Ok(t, rest) => ParsePostfix(Cast(left, t, kind), rest)
       case Wrong => Wrong
       case Beyond => Beyond)
    case _ => Ok(left, ts)
  }

  /** `x++` is `x = x + 1`. */
  function Step(e: Expr, op: BinaryOp): Expr {
    Assign(e, Binary(op, e, Int(1)))
  }

  /** The arguments of a call, up to and with the `)`. */
  function ParseArgs(ts: seq<Token>): (r: Parsed<seq<Expr>>)
    ensures r.Ok? ==> |r.rest| < |ts|
    decreases |ts|, 6
  {
    if Head(ts) == TRParen then Ok([], Tail(ts)) else MoreArgs([], ts)
  }

  function MoreArgs(args: seq<Expr>, ts: seq<Token>): (r: Parsed<seq<Expr>>)
    ensures r.Ok? ==> |r.rest| < |ts|
    decreases |ts|, 5
  {
    match ParseExpr(ts, 0)
    case Wrong => Wrong
    case Beyond => Beyond
    case Ok(e, rest) =>
      if Head(rest) == TComma then MoreArgs(args + [e], Tail(rest))
      else if Head(rest) == TRParen then Ok(args + [e], Tail(rest))
      else Wrong
  }
}
