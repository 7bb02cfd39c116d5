/** Writing an expression and parsing the tokens gives the expression back,
    exactly if no `<` on the way is taken for the start of type arguments. */
module ExprRoundTrip {
  import opened Words
  import opened ExprSyntax
  import opened ExprParsing

  // --- `<` and type arguments ---

  /** No `<` in `ts`, which `rest` follows, opens type arguments. */
  ghost predicate Clean(ts: seq<Token>, rest: seq<Token>) {
    forall i :: 0 <= i < |ts| && ts[i] == TLt ==> !OpensTypeArgs(ts[i + 1..] + rest)
  }

  /** Nor does a `<` in front of everything else. */
  predicate NextClean(rest: seq<Token>) {
    Head(rest) == TLt ==> !OpensTypeArgs(Tail(rest))
  }

  lemma CleanAppend(a: seq<Token>, b: seq<Token>, rest: seq<Token>)
    ensures Clean(a + b, rest) <==> Clean(a, b + rest) && Clean(b, rest)
  {
    hide OpensTypeArgs;
    var ts := a + b;
    forall i | 0 <= i < |ts|
      ensures i < |a| ==> ts[i] == a[i] && ts[i + 1..] + rest == a[i + 1..] + (b + rest)
      ensures i >= |a| ==> ts[i] == b[i - |a|] && ts[i + 1..] == b[i - |a| + 1..]
    {
    }
    if Clean(ts, rest) {
      forall i | 0 <= i < |a| && a[i] == TLt
        ensures !OpensTypeArgs(a[i + 1..] + (b + rest))
      {
        assert ts[i] == TLt;
      }
      forall i | 0 <= i < |b| && b[i] == TLt
        ensures !OpensTypeArgs(b[i + 1..] + rest)
      {
        assert ts[|a| + i] == TLt;
      }
    }
  }

  lemma CleanOne(t: Token, rest: seq<Token>)
    ensures Clean([t], rest) <==> NextClean([t] + rest)
    ensures t != TLt ==> Clean([t], rest)
  {
    hide OpensTypeArgs;
    HeadTail(t, rest);
    assert [t][1..] + rest == rest;
  }

  /** A token in front that is no `<`. */
  lemma CleanFront(t: Token, ts: seq<Token>, rest: seq<Token>)
    requires t != TLt
    ensures Clean([t] + ts, rest) <==> Clean(ts, rest)
  {
    hide Clean;
    CleanAppend([t], ts, rest);
    CleanOne(t, ts + rest);
  }

  /** A token behind that is no `<`. */
  lemma CleanBehind(ts: seq<Token>, t: Token, rest: seq<Token>)
    requires t != TLt
    ensures Clean(ts + [t], rest) <==> Clean(ts, [t] + rest)
  {
    hide Clean;
    CleanAppend(ts, [t], rest);
    CleanOne(t, rest);
  }

  lemma CleanNothing(rest: seq<Token>)
    ensures Clean([], rest)
  {
  }

  /** In the tokens as they stand. */
  lemma CleanMeans(ts: seq<Token>, rest: seq<Token>)
    ensures Clean(ts, rest)
       <==> forall i :: 0 <= i < |ts| && (ts + rest)[i] == TLt ==> !OpensTypeArgs((ts + rest)[i + 1..])
  {
    hide OpensTypeArgs;
    forall i | 0 <= i < |ts|
      ensures (ts + rest)[i] == ts[i] && (ts + rest)[i + 1..] == ts[i + 1..] + rest
    {
    }
  }

  // --- types ---

  lemma {:induction false} TypeBack(t: Type, rest: seq<Token>)
    requires WritableType(t)
    ensures ParseType(WriteType(t) + rest) == Ok(t, rest)
  {
    var ts := WriteType(t) + rest;
    match t
    case Builtin(_) => assert Tail(ts) == rest;
    case PointerTo(b) =>
      assert Tail(ts) == WriteType(b) + rest;
      TypeBack(b, rest);
    case ReferenceTo(b) =>
      assert Tail(ts) == WriteType(b) + rest;
      TypeBack(b, rest);
  }

  lemma {:induction false} TypeClean(t: Type, rest: seq<Token>)
    ensures Clean(WriteType(t), rest)
  {
    hide Clean;
    match t
    case Builtin(k) => CleanOne(TBuiltin(k), rest);
    case PointerTo(b) =>
      TypeClean(b, rest);
      CleanFront(TStar, WriteType(b), rest);
    case ReferenceTo(b) =>
      TypeClean(b, rest);
      CleanFront(TAmp, WriteType(b), rest);
  }

  lemma TypeStart(t: Type, rest: seq<Token>)
    ensures Head(WriteType(t) + rest) != TNot
  {
  }

  // --- what may follow an expression ---

  predicate PostfixToken(t: Token) {
    t == TLParen || t == TLBrace || t == TLBracket || t == TDot || t == TPlusPlus || t == TMinusMinus || t == TAs
  }

  /** Nothing that would be taken as part of the operand in front. */
  predicate Calm(rest: seq<Token>) {
    !PostfixToken(Head(rest)) && Head(rest) != TColonColon
  }

  /** What follows the tokens of `e`, bare, does not belong to it. */
  predicate Follows(e: Expr, rest: seq<Token>) {
    && Calm(rest)
    && (e.Binary? ==> Precedence(Head(rest)) <= Level(e))
    && (e.Assign? ==> Precedence(Head(rest)) < 1)
  }

  // --- single steps of the parser ---

  lemma HeadTail(t: Token, ts: seq<Token>)
    ensures Head([t] + ts) == t && Tail([t] + ts) == ts
  {
  }

  /** Behind a finished operand only a `<` that opens type arguments matters. */
  lemma CalmStops(e: Expr, rest: seq<Token>)
    requires Calm(rest)
    ensures ParsePostfix(e, rest) == if NextClean(rest) then Ok(e, rest) else Beyond
  {
    hide ParseExpr, ParseArgs, OpensTypeArgs;
  }

  lemma LowStops(e: Expr, rest: seq<Token>, level: nat)
    requires Precedence(Head(rest)) < level
    ensures ExprLoop(e, rest, level) == Ok(e, rest)
  {
  }

  /** Reading an operand goes on behind it, or meets type arguments in it. */
  ghost predicate ReadsOperand(e: Expr, written: seq<Token>, rest: seq<Token>) {
    ParseOperand(written + rest) == if Clean(written, rest) then ParsePostfix(e, rest) else Beyond
  }

  /** Reading an expression goes on with it on the left of the loop, or meets
      type arguments in it or right behind it. */
  ghost predicate Continues(e: Expr, written: seq<Token>, rest: seq<Token>, level: nat) {
    ParseExpr(written + rest, level) == if Clean(written, rest) && NextClean(rest) then ExprLoop(e, rest, level) else Beyond
  }

  lemma PrefixParen(ts: seq<Token>, r: Parsed<Expr>, rest: seq<Token>)
    requires ParseExpr(ts, 0) == r && (r.Ok? ==> r.rest == [TRParen] + rest)
    ensures ParsePrefix([TLParen] + ts) == if r.Ok? then Ok(r.value, rest) else r
  {
    hide ParseExpr, ParseUnary;
    HeadTail(TLParen, ts);
    HeadTail(TRParen, rest);
  }

  /** An operand in parentheses. */
  lemma BracketOperand(e: Expr, bare: seq<Token>, rest: seq<Token>)
    requires Continues(e, bare, [TRParen] + rest, 0)
    ensures ReadsOperand(e, [TLParen] + bare + [TRParen], rest)
  {
    hide ParseExpr, ParsePostfix, ExprLoop, ParsePrefix, Clean;
    var inner := bare + ([TRParen] + rest);
    assert [TLParen] + bare + [TRParen] + rest == [TLParen] + inner;
    HeadTail(TRParen, rest);
    LowStops(e, [TRParen] + rest, 0);
    PrefixParen(inner, ParseExpr(inner, 0), rest);
    CleanBehind(bare, TRParen, rest);
    CleanFront(TLParen, bare + [TRParen], rest);
    assert [TLParen] + bare + [TRParen] == [TLParen] + (bare + [TRParen]);
  }

  /** An operand that nothing follows is the left side of the loop. */
  lemma OperandContinues(e: Expr, written: seq<Token>, rest: seq<Token>, level: nat)
    requires ReadsOperand(e, written, rest) && Calm(rest)
    ensures Continues(e, written, rest, level)
  {
    hide ParseOperand, ExprLoop, ParsePostfix, Clean;
    CalmStops(e, rest);
  }

  lemma OpBack(op: BinaryOp)
    ensures OpOf(TokenOf(op)) == op && 2 <= Precedence(TokenOf(op)) <= 9
    ensures TokenOf(op) != TEq && CompoundOp(TokenOf(op)).None? && !PostfixToken(TokenOf(op)) && TokenOf(op) != TColonColon
    ensures TokenOf(op) == TLt <==> op == Lt
  {
  }

  /** A binary operator joins what is on its left and right. */
  lemma LoopBinary(l: Expr, r: Expr, t: Token, ts: seq<Token>, rest: seq<Token>, level: nat)
    requires t != TEq && CompoundOp(t).None? && Precedence(t) >= level
    requires ParseExpr(ts, Precedence(t) + 1) == Ok(r, rest) || ParseExpr(ts, Precedence(t) + 1) == Beyond
    ensures ExprLoop(l, [t] + ts, level)
         == if ParseExpr(ts, Precedence(t) + 1).Ok? then ExprLoop(Binary(OpOf(t), l, r), rest, level) else Beyond
  {
    hide ParseExpr;
    HeadTail(t, ts);
  }

  lemma BinaryStep(op: BinaryOp, l: Expr, r: Expr, written: seq<Token>, rest: seq<Token>, level: nat)
    requires level <= Precedence(TokenOf(op))
    requires Continues(r, written, rest, Precedence(TokenOf(op)) + 1) && Precedence(Head(rest)) <= Precedence(TokenOf(op))
    ensures ExprLoop(l, [TokenOf(op)] + (written + rest), level)
         == if Clean(written, rest) && NextClean(rest) then ExprLoop(Binary(op, l, r), rest, level) else Beyond
  {
    hide ParseExpr, Clean;
    var t := TokenOf(op);
    LowStops(r, rest, Precedence(t) + 1);
    OpBack(op);
    hide ExprLoop;
    LoopBinary(l, r, t, written + rest, rest, level);
  }

  lemma AssignStep(l: Expr, r: Expr, written: seq<Token>, rest: seq<Token>, level: nat)
    requires level <= 1 && Assignable(l) && Continues(r, written, rest, 1) && Precedence(Head(rest)) < 1
    ensures ExprLoop(l, [TEq] + (written + rest), level)
         == if Clean(written, rest) && NextClean(rest) then Ok(Assign(l, r), rest) else Beyond
  {
    hide ParseExpr, Clean;
    HeadTail(TEq, written + rest);
    LowStops(r, rest, 1);
  }

  lemma NoZero(t: Token)
    ensures Precedence(t) < 1 ==> Precedence(t) == -1
  {
  }

  lemma AtMostNine(t: Token)
    ensures Precedence(t) <= 9
  {
  }

  lemma LevelPositive(e: Expr)
    ensures 1 <= Level(e) <= 11
  {
  }

  /** A closing parenthesis ends everything. */
  lemma CloseFollows(e: Expr, rest: seq<Token>)
    ensures Follows(e, [TRParen] + rest) && NextClean([TRParen] + rest)
  {
    HeadTail(TRParen, rest);
    LevelPositive(e);
  }

  // --- operands ---

  /** Operands written at the highest level, whatever follows. */
  lemma {:induction false} OperandBack(e: Expr, c: bool, rest: seq<Token>)
    requires Writable(e) && Head(rest) != TColonColon
    ensures ReadsOperand(e, Write(e, 11, c), rest)
    decreases e, 4
  {
    hide ReadsOperand, Continues, WriteBare, Level, Follows, Writable;
    if Bracketed(e, 11, c) {
      CloseFollows(e, rest);
      LevelPositive(e);
      BareBack(e, c, [TRParen] + rest, 0);
      BracketOperand(e, WriteBare(e, c), rest);
    } else {
      HighBack(e, c, rest);
    }
  }

  /** Bare operands of the highest level. */
  lemma {:induction false} HighBack(e: Expr, c: bool, rest: seq<Token>)
    requires Writable(e) && Level(e) >= 11 && Head(rest) != TColonColon
    ensures ReadsOperand(e, WriteBare(e, c), rest)
    decreases e, 2
  {
    hide ReadsOperand, WriteBare;
    match e
    case Field(_, _) => FieldBack(e, c, rest);
    case Index(_, _) => IndexBack(e, c, rest);
    case Call(_, _) => CallBack(e, c, rest);
    case Cast(_, _, _) => CastBack(e, c, rest);
    case _ => LeafBack(e, c, rest);
  }

  lemma LeafBack(e: Expr, c: bool, rest: seq<Token>)
    requires (e.Int? || e.Bool? || e.Null? || e.Var?) && Head(rest) != TColonColon
    ensures ReadsOperand(e, WriteBare(e, c), rest)
  {
    hide ParsePostfix, ParseExpr, Clean;
    var t := WriteBare(e, c)[0];
    assert WriteBare(e, c) == [t] && WriteBare(e, c) + rest == [t] + rest;
    HeadTail(t, rest);
    CleanOne(t, rest);
    if e.Int? {
      SignedUnsigned(e.v);
    }
    assert ParsePrefix([t] + rest) == Ok(e, rest);
    assert t != TLt;
  }

  lemma PostfixField(left: Expr, x: string, rest: seq<Token>)
    ensures ParsePostfix(left, [TDot, TIdent(x)] + rest) == ParsePostfix(Field(left, x), rest)
  {
    hide ParseExpr, ParseArgs, OpensTypeArgs;
    var ts := [TDot, TIdent(x)] + rest;
    assert Tail(ts) == [TIdent(x)] + rest && Tail(Tail(ts)) == rest;
  }

  lemma FieldClean(x: string, rest: seq<Token>)
    ensures Clean([TDot, TIdent(x)], rest)
  {
    hide Clean;
    CleanOne(TIdent(x), rest);
    CleanFront(TDot, [TIdent(x)], rest);
    assert [TDot] + [TIdent(x)] == [TDot, TIdent(x)];
  }

  lemma {:induction false} FieldBack(e: Expr, c: bool, rest: seq<Token>)
    requires e.Field? && Writable(e)
    ensures ReadsOperand(e, WriteBare(e, c), rest)
    decreases e, 1
  {
    hide ParseOperand, ParsePostfix, Write, Clean;
    var base, more := Write(e.base, 11, c), [TDot, TIdent(e.field)];
    assert WriteBare(e, c) == base + more && WriteBare(e, c) + rest == base + (more + rest);
    HeadTail(TDot, [TIdent(e.field)] + rest);
    assert more + rest == [TDot] + ([TIdent(e.field)] + rest);
    OperandBack(e.base, c, more + rest);
    PostfixField(e.base, e.field, rest);
    CleanAppend(base, more, rest);
    FieldClean(e.field, rest);
  }

  lemma PostfixIndex(left: Expr, r: Parsed<Expr>, ts: seq<Token>, rest: seq<Token>)
    requires ParseExpr(ts, 0) == r && (r.Ok? ==> r.rest == [TRBracket] + rest)
    ensures ParsePostfix(left, [TLBracket] + ts)
         == if r.Ok? then ParsePostfix(Index(left, r.value), rest) else r
  {
    hide ParseExpr, ParseArgs, OpensTypeArgs;
    HeadTail(TLBracket, ts);
    HeadTail(TRBracket, rest);
  }

  lemma {:induction false} IndexBack(e: Expr, c: bool, rest: seq<Token>)
    requires e.Index? && Writable(e)
    ensures ReadsOperand(e, WriteBare(e, c), rest)
    decreases e, 1
  {
    Enders();
    hide ParseOperand, ParsePostfix, ParseExpr, Write, Clean, Continues, Ends;
    HeadTail(TRBracket, rest);
    var base, index, end := Write(e.base, 11, c), Write(e.index, 0, c), [TRBracket] + rest;
    assert WriteBare(e, c) == base + ([TLBracket] + (index + [TRBracket]));
    assert WriteBare(e, c) + rest == base + ([TLBracket] + (index + end));
    OperandBack(e.base, c, [TLBracket] + (index + end));
    WholeBack(e.index, c, end);
    PostfixIndex(e.base, ParseExpr(index + end, 0), index + end, rest);
    assert [TLBracket] + (index + [TRBracket]) + rest == [TLBracket] + (index + end);
    CleanAppend(base, [TLBracket] + (index + [TRBracket]), rest);
    CleanFront(TLBracket, index + [TRBracket], rest);
    CleanBehind(index, TRBracket, rest);
  }

  /** No operator, and nothing that belongs to the operand in front: `;`, `,`, a
      closing bracket, `}`, the end, or the start of something else. */
  predicate Ends(t: Token) {
    Precedence(t) < 0 && !PostfixToken(t) && t != TColonColon
  }

  lemma Enders()
    ensures Ends(TRBracket) && Ends(TRParen) && Ends(TComma) && Ends(TSemi) && Ends(TEof)
  {
    hide PostfixToken, Precedence;
    EndTokens();
    NoPostfix();
  }

  lemma EndTokens()
    ensures Precedence(TRBracket) < 0 && Precedence(TRParen) < 0 && Precedence(TComma) < 0 && Precedence(TSemi) < 0
    ensures Precedence(TEof) < 0
  {
  }

  lemma NoPostfix()
    ensures !PostfixToken(TRBracket) && !PostfixToken(TRParen) && !PostfixToken(TComma) && !PostfixToken(TSemi) && !PostfixToken(TEof)
  {
  }

  /** An expression in brackets, an argument, a statement, or the whole text. */
  lemma {:induction false} WholeBack(e: Expr, c: bool, rest: seq<Token>)
    requires Writable(e) && Ends(Head(rest))
    ensures ParseExpr(Write(e, 0, c) + rest, 0) == if Clean(Write(e, 0, c), rest) then Ok(e, rest) else Beyond
    decreases e, 6
  {
    hide ParseExpr, Write, Clean;
    LevelPositive(e);
    WrittenBack(e, 0, c, rest, 0);
    LowStops(e, rest, 0);
  }

  lemma PostfixCall(left: Expr, r: Parsed<seq<Expr>>, ts: seq<Token>, rest: seq<Token>)
    requires ParseArgs(ts) == r && (r.Ok? ==> r.rest == rest)
    ensures ParsePostfix(left, [TLParen] + ts)
         == if r.Ok? then ParsePostfix(Call(left, r.value), rest) else if r.Wrong? then Wrong else Beyond
  {
    hide ParseExpr, ParseArgs, OpensTypeArgs;
    HeadTail(TLParen, ts);
  }

  lemma {:induction false} CallBack(e: Expr, c: bool, rest: seq<Token>)
    requires e.Call? && Writable(e)
    ensures ReadsOperand(e, WriteBare(e, c), rest)
    decreases e, 1
  {
    hide ParseOperand, ParsePostfix, ParseArgs, Write, WriteArgs, Clean;
    var callee, args, end := Write(e.callee, 11, c), WriteArgs(e.args, c), [TRParen] + rest;
    assert WriteBare(e, c) == callee + ([TLParen] + (args + [TRParen]));
    assert WriteBare(e, c) + rest == callee + ([TLParen] + (args + end));
    OperandBack(e.callee, c, [TLParen] + (args + end));
    ArgsBack(e.args, c, rest);
    PostfixCall(e.callee, ParseArgs(args + end), args + end, rest);
    assert [TLParen] + (args + [TRParen]) + rest == [TLParen] + (args + end);
    CleanAppend(callee, [TLParen] + (args + [TRParen]), rest);
    CleanFront(TLParen, args + [TRParen], rest);
    CleanBehind(args, TRParen, rest);
  }

  lemma {:induction false} ArgsBack(args: seq<Expr>, c: bool, rest: seq<Token>)
    requires forall i :: 0 <= i < |args| ==> Writable(args[i])
    ensures ParseArgs(WriteArgs(args, c) + ([TRParen] + rest))
         == if Clean(WriteArgs(args, c), [TRParen] + rest) then Ok(args, rest) else Beyond
    decreases args, 8
  {
    hide ParseExpr, MoreArgs, Write, Clean;
    var end := [TRParen] + rest;
    HeadTail(TRParen, rest);
    if args == [] {
      assert WriteArgs(args, c) + end == end;
      CleanNothing(end);
    } else {
      MoreBack([], args, c, rest);
      ArgsStart(args, c, end);
      assert [] + args == args;
    }
  }

  lemma {:induction false} MoreBack(done: seq<Expr>, args: seq<Expr>, c: bool, rest: seq<Token>)
    requires args != [] && forall i :: 0 <= i < |args| ==> Writable(args[i])
    ensures MoreArgs(done, WriteArgs(args, c) + ([TRParen] + rest))
         == if Clean(WriteArgs(args, c), [TRParen] + rest) then Ok(done + args, rest) else Beyond
    decreases args, 7
  {
    Enders();
    hide ParseExpr, Write, WriteArgs, Clean, MoreArgs, Writable, Ends;
    var end := [TRParen] + rest;
    HeadTail(TRParen, rest);
    var first := Write(args[0], 0, c);
    ArgsSplit(args, c, end);
    if |args| == 1 {
      WholeBack(args[0], c, end);
      LastArg(done, first + end, args[0], end);
      assert done + [args[0]] == done + args;
    } else {
      var more := WriteArgs(args[1..], c) + end;
      HeadTail(TComma, more);
      WholeBack(args[0], c, [TComma] + more);
      OneArg(done, first + ([TComma] + more), args[0], more);
      MoreBack(done + [args[0]], args[1..], c, rest);
      assert done + [args[0]] + args[1..] == done + args;
    }
  }

  /** The first argument and the others. */
  lemma ArgsSplit(args: seq<Expr>, c: bool, end: seq<Token>)
    requires args != []
    ensures |args| == 1 ==> WriteArgs(args, c) == Write(args[0], 0, c)
    ensures |args| > 1 ==>
      var first, others := Write(args[0], 0, c), WriteArgs(args[1..], c);
      && WriteArgs(args, c) + end == first + ([TComma] + (others + end))
      && (Clean(WriteArgs(args, c), end) <==> Clean(first, [TComma] + (others + end)) && Clean(others, end))
  {
    hide Write, WriteArgs, Clean;
    ArgsShape(args, c);
    if |args| > 1 {
      CommaSplit(Write(args[0], 0, c), WriteArgs(args[1..], c), end);
    }
  }

  lemma ArgsShape(args: seq<Expr>, c: bool)
    requires args != []
    ensures |args| == 1 ==> WriteArgs(args, c) == Write(args[0], 0, c)
    ensures |args| > 1 ==> WriteArgs(args, c) == Write(args[0], 0, c) + ([TComma] + WriteArgs(args[1..], c))
  {
    hide Write;
  }

  lemma CommaSplit(first: seq<Token>, others: seq<Token>, end: seq<Token>)
    ensures var all := first + ([TComma] + others);
      && all + end == first + ([TComma] + (others + end))
      && (Clean(all, end) <==> Clean(first, [TComma] + (others + end)) && Clean(others, end))
  {
    hide Clean;
    assert [TComma] + others + end == [TComma] + (others + end);
    CleanAppend(first, [TComma] + others, end);
    CleanFront(TComma, others, end);
  }

  lemma OneArg(done: seq<Expr>, ts: seq<Token>, a: Expr, more: seq<Token>)
    requires ParseExpr(ts, 0) == Ok(a, [TComma] + more) || ParseExpr(ts, 0) == Beyond
    ensures MoreArgs(done, ts) == if ParseExpr(ts, 0).Ok? then MoreArgs(done + [a], more) else Beyond
  {
    hide ParseExpr;
    HeadTail(TComma, more);
  }

  lemma LastArg(done: seq<Expr>, ts: seq<Token>, a: Expr, end: seq<Token>)
    requires Head(end) == TRParen && (ParseExpr(ts, 0) == Ok(a, end) || ParseExpr(ts, 0) == Beyond)
    ensures MoreArgs(done, ts) == if ParseExpr(ts, 0).Ok? then Ok(done + [a], Tail(end)) else Beyond
  {
    hide ParseExpr;
  }

  /** An argument list does not begin with its end. */
  lemma ArgsStart(args: seq<Expr>, c: bool, end: seq<Token>)
    requires args != []
    ensures Head(WriteArgs(args, c) + end) != TRParen
  {
    hide Write;
    WriteStart(args[0], 0, c);
  }

  lemma {:induction false} WriteStart(e: Expr, level: int, c: bool)
    ensures Write(e, level, c) != [] && Write(e, level, c)[0] != TRParen
    decreases e, 1
  {
    hide WriteBare;
    if !Bracketed(e, level, c) {
      BareStart(e, c);
    }
  }

  lemma {:induction false} BareStart(e: Expr, c: bool)
    ensures WriteBare(e, c) != [] && WriteBare(e, c)[0] != TRParen
    decreases e, 0
  {
    hide Write;
    match e
    case Binary(op, l, r) => WriteStart(l, Precedence(TokenOf(op)), c);
    case Assign(l, _) => WriteStart(l, 11, c);
    case Field(b, _) => WriteStart(b, 11, c);
    case Index(b, _) => WriteStart(b, 11, c);
    case Call(f, _) => WriteStart(f, 11, c);
    case Cast(x, _, _) => WriteStart(x, 11, c);
    case _ =>
  }

  lemma PostfixAs(left: Expr, ts: seq<Token>, kind: CastKind, from: seq<Token>, t: Type, rest: seq<Token>)
    requires Head(ts) == TAs && kind == (if Head(Tail(ts)) == TNot then Bitcast else ValueCast)
    requires from == (if kind == Bitcast then Tail(Tail(ts)) else Tail(ts)) && ParseType(from) == Ok(t, rest)
    ensures ParsePostfix(left, ts) == ParsePostfix(Cast(left, t, kind), rest)
  {
    hide ParseType, ParseExpr, ParseArgs, OpensTypeArgs, Head, Tail;
  }

  lemma PostfixCast(left: Expr, t: Type, kind: CastKind, tail: seq<Token>, rest: seq<Token>)
    requires ParseType(tail) == Ok(t, rest) && Head(tail) != TNot
    ensures ParsePostfix(left, [TAs] + ((if kind == Bitcast then [TNot] else []) + tail)) == ParsePostfix(Cast(left, t, kind), rest)
  {
    hide *;
    var more := (if kind == Bitcast then [TNot] else []) + tail;
    HeadTail(TAs, more);
    if kind == Bitcast {
      HeadTail(TNot, tail);
    } else {
      assert more == tail;
    }
    PostfixAs(left, [TAs] + more, kind, tail, t, rest);
  }

  lemma {:induction false} CastBack(e: Expr, c: bool, rest: seq<Token>)
    requires e.Cast? && Writable(e)
    ensures ReadsOperand(e, WriteBare(e, c), rest)
    decreases e, 1
  {
    hide ParseOperand, ParsePostfix, Write, WriteType, ParseType, Clean;
    var inner, kind, to := Write(e.inner, 11, c), if e.cast == Bitcast then [TNot] else [], WriteType(e.to);
    assert WriteBare(e, c) == inner + ([TAs] + (kind + to));
    assert WriteBare(e, c) + rest == inner + ([TAs] + (kind + (to + rest)));
    assert [TAs] + (kind + to) + rest == [TAs] + (kind + (to + rest));
    HeadTail(TAs, kind + (to + rest));
    OperandBack(e.inner, c, [TAs] + (kind + (to + rest)));
    TypeBack(e.to, rest);
    TypeStart(e.to, rest);
    PostfixCast(e.inner, e.to, e.cast, to + rest, rest);
    CleanAppend(inner, [TAs] + (kind + to), rest);
    CleanFront(TAs, kind + to, rest);
    CastClean(e.to, kind, rest);
  }

  lemma CastClean(t: Type, kind: seq<Token>, rest: seq<Token>)
    requires kind == [TNot] || kind == []
    ensures Clean(kind + WriteType(t), rest)
  {
    hide Clean;
    TypeClean(t, rest);
    if kind == [] {
      assert kind + WriteType(t) == WriteType(t);
    } else {
      CleanFront(TNot, WriteType(t), rest);
    }
  }

  // --- all levels ---

  /** The written expression, read at any level up to the one it was written for. */
  lemma {:induction false} WrittenBack(e: Expr, at: nat, c: bool, rest: seq<Token>, level: nat)
    requires Writable(e) && level <= at <= 11 && Calm(rest)
    requires !Bracketed(e, at, c) ==> Follows(e, rest)
    ensures Continues(e, Write(e, at, c), rest, level)
    decreases e, 5
  {
    hide ReadsOperand, Continues, WriteBare, Follows, Level, Writable, Calm;
    if Bracketed(e, at, c) {
      CloseFollows(e, rest);
      LevelPositive(e);
      BareBack(e, c, [TRParen] + rest, 0);
      BracketOperand(e, WriteBare(e, c), rest);
      OperandContinues(e, Write(e, at, c), rest, level);
    } else {
      BareBack(e, c, rest, level);
    }
  }

  lemma {:induction false} BareBack(e: Expr, c: bool, rest: seq<Token>, level: nat)
    requires Writable(e) && level <= Level(e) && Follows(e, rest)
    ensures Continues(e, WriteBare(e, c), rest, level)
    decreases e, 3
  {
    hide ReadsOperand, Continues, WriteBare;
    match e
    case Unary(_, _) => UnaryBack(e, c, rest, level);
    case Binary(_, _, _) => BinaryBack(e, c, rest, level);
    case Assign(_, _) => AssignBack(e, c, rest, level);
    case _ =>
      HighBack(e, c, rest);
      OperandContinues(e, WriteBare(e, c), rest, level);
  }

  lemma PrefixUnary(op: UnaryOp, ts: seq<Token>)
    ensures ParsePrefix([UnaryToken(op)] + ts) == ParseUnary(op, ts)
    ensures UnaryToken(op) != TLt
  {
    hide ParseExpr, ParseUnary;
    HeadTail(UnaryToken(op), ts);
  }

  /** A prefix operator in front of its operand; `<` behind the operand is met
      by the operand already. */
  lemma UnaryOperand(e: Expr, written: seq<Token>, rest: seq<Token>)
    requires e.Unary? && Continues(e.operand, written, rest, 10) && Calm(rest)
    ensures ParseOperand([UnaryToken(e.uop)] + (written + rest))
         == if Clean(written, rest) && NextClean(rest) then ParsePostfix(e, rest) else Beyond
  {
    hide ParseExpr, ParsePostfix, ParsePrefix, ExprLoop, Clean, Calm;
    PrefixUnary(e.uop, written + rest);
    AtMostNine(Head(rest));
    LowStops(e.operand, rest, 10);
  }

  lemma {:induction false} UnaryBack(e: Expr, c: bool, rest: seq<Token>, level: nat)
    requires e.Unary? && Writable(e) && Calm(rest)
    ensures Continues(e, WriteBare(e, c), rest, level)
    decreases e, 1
  {
    hide ParseOperand, ParsePostfix, ExprLoop, Write, Calm, Clean;
    var written := Write(e.operand, 10, c);
    assert WriteBare(e, c) + rest == [UnaryToken(e.uop)] + (written + rest);
    WrittenBack(e.operand, 10, c, rest, 10);
    UnaryOperand(e, written, rest);
    PrefixUnary(e.uop, written + rest);
    CalmStops(e, rest);
    CleanFront(UnaryToken(e.uop), written, rest);
  }

  lemma OperatorCalm(op: BinaryOp, more: seq<Token>)
    ensures Calm([TokenOf(op)] + more) && Head([TokenOf(op)] + more) == TokenOf(op)
  {
    HeadTail(TokenOf(op), more);
    OpBack(op);
  }

  /** What makes a binary expression clean. */
  lemma BinaryClean(l: seq<Token>, t: Token, r: seq<Token>, rest: seq<Token>)
    ensures Clean(l + [t] + r, rest) <==> Clean(l, [t] + (r + rest)) && NextClean([t] + (r + rest)) && Clean(r, rest)
  {
    hide Clean, NextClean;
    assert l + [t] + r == l + ([t] + r) && [t] + r + rest == [t] + (r + rest);
    CleanAppend(l, [t] + r, rest);
    CleanAppend([t], r, rest);
    CleanOne(t, r + rest);
  }

  /** The two sides of a binary expression, read one after the other. */
  lemma BinaryJoin(e: Expr, c: bool, l: seq<Token>, r: seq<Token>, rest: seq<Token>, level: nat)
    requires e.Binary? && level <= Precedence(TokenOf(e.op)) && Precedence(Head(rest)) <= Precedence(TokenOf(e.op))
    requires WriteBare(e, c) == l + [TokenOf(e.op)] + r
    requires Continues(e.left, l, [TokenOf(e.op)] + (r + rest), level)
    requires Continues(e.right, r, rest, Precedence(TokenOf(e.op)) + 1)
    ensures Continues(e, WriteBare(e, c), rest, level)
  {
    hide ParseExpr, ExprLoop, WriteBare, Clean, NextClean, Precedence, TokenOf;
    var t := TokenOf(e.op);
    assert WriteBare(e, c) + rest == l + ([t] + (r + rest));
    BinaryStep(e.op, e.left, e.right, r, rest, level);
    BinaryClean(l, t, r, rest);
  }

  lemma {:induction false} BinaryBack(e: Expr, c: bool, rest: seq<Token>, level: nat)
    requires e.Binary? && Writable(e) && level <= Level(e) && Follows(e, rest)
    ensures Continues(e, WriteBare(e, c), rest, level)
    decreases e, 1
  {
    hide Continues, ParseExpr, ExprLoop, Write, Calm, Clean, NextClean, Precedence, TokenOf;
    var t := TokenOf(e.op);
    var q := Precedence(t);
    OpBack(e.op);
    var l, r := Write(e.left, q, c), Write(e.right, q + 1, c);
    OperatorCalm(e.op, r + rest);
    WrittenBack(e.left, q, c, [t] + (r + rest), level);
    WrittenBack(e.right, q + 1, c, rest, q + 1);
    BinaryJoin(e, c, l, r, rest, level);
  }

  lemma {:induction false} AssignBack(e: Expr, c: bool, rest: seq<Token>, level: nat)
    requires e.Assign? && Writable(e) && level <= 1 && Follows(e, rest)
    ensures Continues(e, WriteBare(e, c), rest, level)
    decreases e, 1
  {
    hide ExprLoop, ParseOperand, ParsePostfix, Write, Calm, Clean;
    var l, r := Write(e.target, 11, c), Write(e.value, 1, c);
    var more := r + rest;
    assert WriteBare(e, c) + rest == l + ([TEq] + more);
    EqCalm(more);
    OperandBack(e.target, c, [TEq] + more);
    CalmStops(e.target, [TEq] + more);
    WrittenBack(e.value, 1, c, rest, 1);
    AssignStep(e.target, e.value, r, rest, level);
    NoZero(Head(rest));
    LowStops(e, rest, level);
    BinaryClean(l, TEq, r, rest);
  }

  lemma EqCalm(more: seq<Token>)
    ensures Calm([TEq] + more) && Head([TEq] + more) == TEq && NextClean([TEq] + more)
  {
    HeadTail(TEq, more);
  }

  // --- guarded writing is clean ---

  predicate Passed(t: Token) {
    t.TIdent? || t == TStar || t == TAmp
  }

  /** A token that ends the look-ahead with no. */
  predicate Stops(t: Token) {
    t.TNumber? || t == TTrue || t == TFalse || t == TNullPtr || t == TPlus || t == TMinus || t == TSlash
    || t == TNot || t == TLParen || t == TRParen || t == TLBracket || t == TDot || t == TAs
  }

  lemma LookStep(t: Token, ts: seq<Token>)
    ensures Passed(t) ==> (LooksGeneric([t] + ts, 1) <==> LooksGeneric(ts, 1))
    ensures Stops(t) ==> !LooksGeneric([t] + ts, 1)
  {
    assert ([t] + ts)[1..] == ts;
  }

  /** The right operand of a `<` never looks like type arguments if what is
      behind it does not. */
  lemma {:induction false} ScanWritten(e: Expr, level: nat, c: bool, rest: seq<Token>)
    requires level >= 8 && !LooksGeneric(rest, 1)
    ensures !LooksGeneric(Write(e, level, c) + rest, 1)
    decreases e, 2
  {
    hide LooksGeneric, WriteBare;
    if Bracketed(e, level, c) {
      var more := WriteBare(e, c) + [TRParen] + rest;
      assert Write(e, level, c) + rest == [TLParen] + more;
      LookStep(TLParen, more);
    } else {
      ScanBare(e, c, rest);
    }
  }

  lemma {:induction false} ScanBare(e: Expr, c: bool, rest: seq<Token>)
    requires Level(e) >= 8 && !LooksGeneric(rest, 1)
    ensures !LooksGeneric(WriteBare(e, c) + rest, 1)
    decreases e, 1
  {
    hide LooksGeneric, Write, Precedence, TokenOf, WriteType, WriteArgs;
    ScanLevels(e);
    match e
    case Unary(op, x) =>
      assert WriteBare(e, c) + rest == [UnaryToken(op)] + (Write(x, 10, c) + rest);
      ScanWritten(x, 10, c, rest);
      ScanUnary(op, Write(x, 10, c) + rest);
    case Binary(_, _, _) => ScanBinary(e, c, rest);
    case Field(_, _) => ScanOn(e, c, rest);
    case Index(_, _) => ScanOn(e, c, rest);
    case Call(_, _) => ScanOn(e, c, rest);
    case Cast(_, _, _) => ScanOn(e, c, rest);
    case _ => ScanLeaf(e, c, rest);
  }

  lemma ScanLevels(e: Expr)
    requires Level(e) >= 8
    ensures !e.Assign?
  {
  }

  lemma ScanLeaf(e: Expr, c: bool, rest: seq<Token>)
    requires (e.Int? || e.Bool? || e.Null? || e.Var?) && !LooksGeneric(rest, 1)
    ensures !LooksGeneric(WriteBare(e, c) + rest, 1)
  {
    hide LooksGeneric;
    LookStep(WriteBare(e, c)[0], rest);
  }

  lemma ScanUnary(op: UnaryOp, ts: seq<Token>)
    requires !LooksGeneric(ts, 1)
    ensures !LooksGeneric([UnaryToken(op)] + ts, 1)
  {
    hide LooksGeneric;
    LookStep(UnaryToken(op), ts);
  }

  lemma {:induction false} ScanBinary(e: Expr, c: bool, rest: seq<Token>)
    requires e.Binary? && Level(e) >= 8 && !LooksGeneric(rest, 1)
    ensures !LooksGeneric(WriteBare(e, c) + rest, 1)
    decreases e, 0
  {
    hide LooksGeneric, Write, Precedence;
    var t := TokenOf(e.op);
    var q := Precedence(t);
    var more := Write(e.right, q + 1, c) + rest;
    assert WriteBare(e, c) + rest == Write(e.left, q, c) + ([t] + more);
    ScanWritten(e.right, q + 1, c, rest);
    ArithmeticOps(e.op);
    LookStep(t, more);
    ScanWritten(e.left, q, c, [t] + more);
  }

  lemma ArithmeticOps(op: BinaryOp)
    requires Precedence(TokenOf(op)) >= 8
    ensures Passed(TokenOf(op)) || Stops(TokenOf(op))
  {
  }

  /** Postfix operators end the look-ahead. */
  lemma {:induction false} ScanOn(e: Expr, c: bool, rest: seq<Token>)
    requires e.Field? || e.Index? || e.Call? || e.Cast?
    ensures !LooksGeneric(WriteBare(e, c) + rest, 1)
    decreases e, 0
  {
    hide LooksGeneric, Write, WriteBare;
    var inner, t, tail := PostfixShape(e, c);
    assert WriteBare(e, c) + rest == Write(inner, 11, c) + ([t] + (tail + rest));
    LookStep(t, tail + rest);
    ScanWritten(inner, 11, c, [t] + (tail + rest));
  }

  lemma PostfixShape(e: Expr, c: bool) returns (inner: Expr, t: Token, tail: seq<Token>)
    requires e.Field? || e.Index? || e.Call? || e.Cast?
    ensures inner < e && Stops(t) && WriteBare(e, c) == Write(inner, 11, c) + ([t] + tail)
  {
    hide Write, WriteArgs, WriteType;
    match e
    case Field(b, x) => inner, t, tail := b, TDot, [TIdent(x)];
    case Index(b, i) => inner, t, tail := b, TLBracket, Write(i, 0, c) + [TRBracket];
    case Call(f, args) => inner, t, tail := f, TLParen, WriteArgs(args, c) + [TRParen];
    case Cast(x, to, k) => inner, t, tail := x, TAs, (if k == Bitcast then [TNot] else []) + WriteType(to);
  }

  /** With parentheses round every `<` none is taken for type arguments. */
  lemma {:induction false} GuardedClean(e: Expr, level: int, rest: seq<Token>)
    ensures Clean(Write(e, level, true), rest)
    decreases e, 2
  {
    hide Clean, WriteBare;
    if Bracketed(e, level, true) {
      var bare := WriteBare(e, true);
      LookStep(TRParen, rest);
      GuardedBare(e, [TRParen] + rest);
      CleanBehind(bare, TRParen, rest);
      CleanFront(TLParen, bare + [TRParen], rest);
      assert [TLParen] + bare + [TRParen] == [TLParen] + (bare + [TRParen]);
    } else {
      GuardedBare(e, rest);
    }
  }

  lemma {:induction false} GuardedBare(e: Expr, rest: seq<Token>)
    requires e.Binary? && e.op == Lt ==> !LooksGeneric(rest, 1)
    ensures Clean(WriteBare(e, true), rest)
    decreases e, 1
  {
    hide Clean, LooksGeneric, Write;
    match e
    case Int(v) => CleanOne(TNumber(Unsigned(v)), rest);
    case Bool(b) => CleanOne(if b then TTrue else TFalse, rest);
    case Null => CleanOne(TNullPtr, rest);
    case Var(x) => CleanOne(TIdent(x), rest);
    case Unary(op, x) =>
      GuardedClean(x, 10, rest);
      PrefixUnary(op, []);
      CleanFront(UnaryToken(op), Write(x, 10, true), rest);
    case Binary(op, l, r) => GuardedBinary(e, rest);
    case Assign(l, r) =>
      GuardedClean(l, 11, [TEq] + (Write(r, 1, true) + rest));
      GuardedClean(r, 1, rest);
      EqCalm(Write(r, 1, true) + rest);
      BinaryClean(Write(l, 11, true), TEq, Write(r, 1, true), rest);
    case Field(b, x) =>
      GuardedClean(b, 11, [TDot, TIdent(x)] + rest);
      CleanAppend(Write(b, 11, true), [TDot, TIdent(x)], rest);
      FieldClean(x, rest);
    case Index(b, i) =>
      GuardedClean(i, 0, [TRBracket] + rest);
      GuardedPostfix(b, TLBracket, Write(i, 0, true), TRBracket, rest);
    case Call(f, args) =>
      GuardedArgs(args, [TRParen] + rest);
      GuardedPostfix(f, TLParen, WriteArgs(args, true), TRParen, rest);
    case Cast(x, t, k) =>
      var kind := if k == Bitcast then [TNot] else [];
      assert WriteBare(e, true) == Write(x, 11, true) + ([TAs] + (kind + WriteType(t)));
      GuardedClean(x, 11, [TAs] + (kind + WriteType(t)) + rest);
      CleanAppend(Write(x, 11, true), [TAs] + (kind + WriteType(t)), rest);
      CleanFront(TAs, kind + WriteType(t), rest);
      CastClean(t, kind, rest);
  }

  lemma {:induction false} GuardedBinary(e: Expr, rest: seq<Token>)
    requires e.Binary? && (e.op == Lt ==> !LooksGeneric(rest, 1))
    ensures Clean(WriteBare(e, true), rest)
    decreases e, 0
  {
    hide Clean, LooksGeneric, Write, Precedence;
    var t := TokenOf(e.op);
    var q := Precedence(t);
    OpBack(e.op);
    var l, r := Write(e.left, q, true), Write(e.right, q + 1, true);
    GuardedClean(e.left, q, [t] + (r + rest));
    GuardedClean(e.right, q + 1, rest);
    HeadTail(t, r + rest);
    if e.op == Lt {
      LessLevel();
      ScanWritten(e.right, q + 1, true, rest);
    }
    BinaryClean(l, t, r, rest);
  }

  lemma LessLevel()
    ensures Precedence(TokenOf(Lt)) == 7
  {
  }

  lemma {:induction false} GuardedPostfix(b: Expr, open: Token, inside: seq<Token>, close: Token, rest: seq<Token>)
    requires open != TLt && close != TLt && Clean(inside, [close] + rest)
    ensures Clean(Write(b, 11, true) + [open] + inside + [close], rest)
    decreases b, 3
  {
    hide Clean, Write;
    var base := Write(b, 11, true);
    assert base + [open] + inside + [close] == base + ([open] + (inside + [close]));
    GuardedClean(b, 11, [open] + (inside + [close]) + rest);
    CleanAppend(base, [open] + (inside + [close]), rest);
    CleanFront(open, inside + [close], rest);
    CleanBehind(inside, close, rest);
  }

  lemma {:induction false} GuardedArgs(args: seq<Expr>, rest: seq<Token>)
    ensures Clean(WriteArgs(args, true), rest)
    decreases args, 3
  {
    hide Clean, Write;
    if args == [] {
      CleanNothing(rest);
    } else if |args| == 1 {
      GuardedClean(args[0], 0, rest);
    } else {
      var first, others := Write(args[0], 0, true), WriteArgs(args[1..], true);
      assert WriteArgs(args, true) == first + ([TComma] + others);
      GuardedClean(args[0], 0, [TComma] + others + rest);
      GuardedArgs(args[1..], rest);
      CleanAppend(first, [TComma] + others, rest);
      CleanFront(TComma, others, rest);
    }
  }

  // --- the theorems ---

  /** Written with as few parentheses as the levels ask for (or with more), an
      expression is read back, and what followed is left, exactly if no `<` among
      its tokens opens type arguments; otherwise the parser leaves expressions for
      type arguments. */
  lemma ReadBack(e: Expr, c: bool, rest: seq<Token>)
    requires Writable(e) && Ends(Head(rest))
    ensures var n, ts := |Write(e, 0, c)|, Write(e, 0, c) + rest;
      && (ParseExpr(ts, 0) == Ok(e, rest) <==> forall i :: 0 <= i < n && ts[i] == TLt ==> !OpensTypeArgs(ts[i + 1..]))
      && (ParseExpr(ts, 0) == Ok(e, rest) || ParseExpr(ts, 0) == Beyond)
  {
    hide ParseExpr, Write, OpensTypeArgs;
    WholeBack(e, c, rest);
    CleanMeans(Write(e, 0, c), rest);
  }

  /** With parentheses round every `<` every expression is read back: binary
      operators associate to the left, assignment to the right. */
  lemma RoundTrip(e: Expr, rest: seq<Token>)
    requires Writable(e) && Ends(Head(rest))
    ensures ParseExpr(Write(e, 0, true) + rest, 0) == Ok(e, rest)
  {
    hide ParseExpr, Write, Clean;
    WholeBack(e, true, rest);
    GuardedClean(e, 0, rest);
  }

  /** Different expressions are written differently. */
  lemma WriteInjective(e: Expr, e': Expr)
    requires Writable(e) && Writable(e') && Write(e, 0, true) == Write(e', 0, true)
    ensures e == e'
  {
    Enders();
    hide *;
    NoToken();
    RoundTrip(e, []);
    RoundTrip(e', []);
  }

  lemma NoToken()
    ensures Head([]) == TEof
  {
  }

  /** Without the guard a comparison can be taken for type arguments: the tokens
      of `a < b > (c > d)`. */
  lemma BareLessFails()
    ensures var e := Binary(Gt, Binary(Lt, Var("a"), Var("b")), Binary(Gt, Var("c"), Var("d")));
      && Writable(e)
      && Write(e, 0, false) == [TIdent("a"), TLt, TIdent("b"), TGt, TLParen, TIdent("c"), TGt, TIdent("d"), TRParen]
      && ParseExpr(Write(e, 0, false) + [], 0) == Beyond
  {
    hide *;
    var e := Binary(Gt, Binary(Lt, Var("a"), Var("b")), Binary(Gt, Var("c"), Var("d")));
    BareLessTokens();
    Enders();
    NoToken();
    WholeBack(e, false, []);
    var more := [TIdent("c"), TGt, TIdent("d"), TRParen];
    HeadTail(TLParen, more);
    assert Write(e, 0, false) == [TIdent("a"), TLt, TIdent("b"), TGt] + ([TLParen] + more);
    NotClean("a", "b", [TLParen] + more, []);
  }

  lemma NotClean(x: string, y: string, tail: seq<Token>, rest: seq<Token>)
    requires Head(tail) == TLParen
    ensures !Clean([TIdent(x), TLt, TIdent(y), TGt] + tail, rest)
  {
    hide OpensTypeArgs;
    var ts := [TIdent(x), TLt, TIdent(y), TGt] + tail;
    assert ts[1] == TLt && ts[1 + 1..] + rest == [TIdent(y)] + ([TGt] + (tail + rest));
    Opens(y, tail + rest);
  }

  lemma Opens(x: string, tail: seq<Token>)
    requires Head(tail) == TLParen
    ensures OpensTypeArgs([TIdent(x)] + ([TGt] + tail))
  {
    LookStep(TIdent(x), [TGt] + tail);
    assert ([TGt] + tail)[1..] == tail;
  }

  lemma BareLessTokens()
    ensures Writable(Binary(Gt, Binary(Lt, Var("a"), Var("b")), Binary(Gt, Var("c"), Var("d"))))
    ensures Write(Binary(Gt, Binary(Lt, Var("a"), Var("b")), Binary(Gt, Var("c"), Var("d"))), 0, false)
         == [TIdent("a"), TLt, TIdent("b"), TGt, TLParen, TIdent("c"), TGt, TIdent("d"), TRParen]
  {
    var l, r := Binary(Lt, Var("a"), Var("b")), Binary(Gt, Var("c"), Var("d"));
    PairTokens(Lt, "a", "b");
    PairTokens(Gt, "c", "d");
    JoinTokens(Gt, l, r);
    hide WriteBare;
    assert Write(l, 7, false) == WriteBare(l, false) && Write(r, 8, false) == [TLParen] + WriteBare(r, false) + [TRParen];
  }

  lemma JoinTokens(op: BinaryOp, l: Expr, r: Expr)
    ensures var q := Precedence(TokenOf(op));
      WriteBare(Binary(op, l, r), false) == Write(l, q, false) + [TokenOf(op)] + Write(r, q + 1, false)
  {
    hide Write, Precedence, TokenOf;
  }

  lemma PairTokens(op: BinaryOp, x: string, y: string)
    ensures WriteBare(Binary(op, Var(x), Var(y)), false) == [TIdent(x), TokenOf(op), TIdent(y)]
  {
    JoinTokens(op, Var(x), Var(y));
    OpBack(op);
    hide Precedence, TokenOf, WriteBare;
    NameTokens(x);
    NameTokens(y);
  }

  lemma NameTokens(x: string)
    ensures WriteBare(Var(x), false) == [TIdent(x)]
  {
  }
}
