/** Expressions, their tokens, and how they are written. */
module ExprSyntax {
  import opened Words

  datatype Token =
    | TNumber(inum: Word) | TTrue | TFalse | TNullPtr
    | TIdent(text: string)
    | TBuiltin(kind: TypeKind) | TCharType
    | TPlus | TMinus | TStar | TSlash
    | TEqEq | TNeq | TLt | TLte | TGt | TGte
    | TAmp | TPipe | TAmpAmp | TPipePipe
    | TEq | TPlusEq | TMinusEq | TStarEq | TSlashEq | TAmpEq | TPipeEq
    | TNot | TPlusPlus | TMinusMinus
    | TLParen | TRParen | TLBrace | TRBrace | TLBracket | TRBracket
    | TDot | TComma | TSemi | TColonColon | TAs
    | TEof
    | TOther

  datatype Type = Builtin(kind: TypeKind) | PointerTo(base: Type) | ReferenceTo(base: Type)

  datatype UnaryOp = Not | Neg | AddrOf

  datatype CastKind = ValueCast | Bitcast

  datatype Expr =
    | Int(v: Int64)
    | Bool(b: bool)
    | Null
    | Var(name: string)
    | Unary(uop: UnaryOp, operand: Expr)
    | Binary(op: BinaryOp, left: Expr, right: Expr)
    | Assign(target: Expr, value: Expr)
    | Field(base: Expr, field: string)
    | Index(base: Expr, index: Expr)
    | Call(callee: Expr, args: seq<Expr>)
    | Cast(inner: Expr, to: Type, cast: CastKind)

  /** The current token; behind the last one there is only the end. */
  function Head(ts: seq<Token>): Token {
    if ts == [] then TEof else ts[0]
  }

  function Tail(ts: seq<Token>): seq<Token> {
    if ts == [] then [] else ts[1..]
  }

  // --- operators ---

  /** `get_precedence` */
  function Precedence(t: Token): int {
    match t
    case TEq => 1
    case TPlusEq => 1
    case TMinusEq => 1
    case TStarEq => 1
    case TSlashEq => 1
    case TAmpEq => 1
    case TPipeEq => 1
    case TPipePipe => 2
    case TAmpAmp => 3
    case TPipe => 4
    case TAmp => 5
    case TEqEq => 6
    case TNeq => 6
    case TLt => 7
    case TLte => 7
    case TGt => 7
    case TGte => 7
    case TPlus => 8
    case TMinus => 8
    case TStar => 9
    case TSlash => 9
    case _ => -1
  }

  /** `get_op_from_token` */
  function OpOf(t: Token): BinaryOp {
    match t
    case TPlus => Add
    case TMinus => Sub
    case TStar => Mul
    case TSlash => Div
    case TEqEq => Eq
    case TNeq => NotEq
    case TLt => Lt
    case TLte => Lte
    case TGt => Gt
    case TGte => Gte
    case TAmp => BitAnd
    case TPipe => BitOr
    case TAmpAmp => LogicAnd
    case TPipePipe => LogicOr
    case _ => Add
  }

  function TokenOf(op: BinaryOp): Token {
    match op
    case Add => TPlus
    case Sub => TMinus
    case Mul => TStar
    case Div => TSlash
    case Eq => TEqEq
    case NotEq => TNeq
    case Lt => TLt
    case Lte => TLte
    case Gt => TGt
    case Gte => TGte
    case BitAnd => TAmp
    case BitOr => TPipe
    case LogicAnd => TAmpAmp
    case LogicOr => TPipePipe
  }

  /** The operator of a compound assignment. */
  function CompoundOp(t: Token): Option<BinaryOp> {
    match t
    case TPlusEq => Some(Add)
    case TMinusEq => Some(Sub)
    case TStarEq => Some(Mul)
    case TSlashEq => Some(Div)
    case TAmpEq => Some(BitAnd)
    case TPipeEq => Some(BitOr)
    case _ => None
  }

  predicate Assignable(e: Expr) {
    e.Var? || e.Field? || e.Index?
  }

  // --- writing ---

  /** How tightly an expression holds together without parentheses. */
  function Level(e: Expr): int {
    match e
    case Assign(_, _) => 1
    case Binary(op, _, _) => Precedence(TokenOf(op))
    case Unary(_, _) => 10
    case _ => 11
  }

  /** Parentheses are needed below the asked level. A guarded writer also puts
      them round every `<`, which might otherwise look like the start of type
      arguments. */
  predicate Bracketed(e: Expr, level: int, guarded: bool) {
    Level(e) < level || (guarded && e.Binary? && e.op == Lt)
  }

  function UnaryToken(op: UnaryOp): Token {
    match op
    case Not => TNot
    case Neg => TMinus
    case AddrOf => TAmp
  }

  function WriteType(t: Type): seq<Token> {
    match t
    case Builtin(k) => [TBuiltin(k)]
    case PointerTo(b) => [TStar] + WriteType(b)
    case ReferenceTo(b) => [TAmp] + WriteType(b)
  }

  /** The tokens of an expression without parentheses round it. */
  function WriteBare(e: Expr, guarded: bool): seq<Token>
    decreases e, 0
  {
    match e
    case Int(v) => [TNumber(Unsigned(v))]
    case Bool(b) => [if b then TTrue else TFalse]
    case Null => [TNullPtr]
    case Var(x) => [TIdent(x)]
    case Unary(op, x) => [UnaryToken(op)] + Write(x, 10, guarded)
    case Binary(op, l, r) =>
      Write(l, Precedence(TokenOf(op)), guarded) + [TokenOf(op)] + Write(r, Precedence(TokenOf(op)) + 1, guarded)
    case Assign(l, r) => Write(l, 11, guarded) + [TEq] + Write(r, 1, guarded)
    case Field(b, x) => Write(b, 11, guarded) + [TDot, TIdent(x)]
    case Index(b, i) => Write(b, 11, guarded) + [TLBracket] + Write(i, 0, guarded) + [TRBracket]
    case Call(f, args) => Write(f, 11, guarded) + [TLParen] + WriteArgs(args, guarded) + [TRParen]
    case Cast(x, t, k) => Write(x, 11, guarded) + [TAs] + (if k == Bitcast then [TNot] else []) + WriteType(t)
  }

  function Write(e: Expr, level: int, guarded: bool): seq<Token>
    decreases e, 1
  {
    if Bracketed(e, level, guarded) then [TLParen] + WriteBare(e, guarded) + [TRParen] else WriteBare(e, guarded)
  }

  function WriteArgs(args: seq<Expr>, guarded: bool): seq<Token>
    decreases args
  {
    if args == [] then []
    else if |args| == 1 then Write(args[0], 0, guarded)
    else Write(args[0], 0, guarded) + [TComma] + WriteArgs(args[1..], guarded)
  }

  predicate BuiltinKind(k: TypeKind) {
    k == Void || k.Bool? || IsScalarIntKind(k) || IsFloatKind(k) || k == Str
  }

  predicate WritableType(t: Type) {
    match t
    case Builtin(k) => BuiltinKind(k)
    case PointerTo(b) => WritableType(b)
    case ReferenceTo(b) => WritableType(b)
  }

  /** What the parser can produce: assignments have a target, casts a type the
      language names. */
  predicate Writable(e: Expr)
    decreases e
  {
    match e
    case Unary(_, x) => Writable(x)
    case Binary(_, l, r) => Writable(l) && Writable(r)
    case Assign(l, r) => Assignable(l) && Writable(l) && Writable(r)
    case Field(b, _) => Writable(b)
    case Index(b, i) => Writable(b) && Writable(i)
    case Call(f, args) => Writable(f) && forall i :: 0 <= i < |args| ==> Writable(args[i])
    case Cast(x, t, _) => Writable(x) && WritableType(t)
    case _ => true
  }
}
