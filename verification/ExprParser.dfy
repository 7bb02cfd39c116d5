/** The parser object: a current token, a look-ahead buffer and a lexer. */
module ExprParser {
  import opened Words
  import opened ExprSyntax
  import opened ExprParsing

  /** What a parsing method hands back; after `Failed` (an error was reported)
      and `Outside` the position is not specified. */
  datatype Outcome<T> = Got(value: T) | Failed | Outside

  /** The outcome and the new position are those of the specification. */
  predicate Agrees<T(==)>(r: Outcome<T>, view: seq<Token>, spec: Parsed<T>) {
    match spec
    case Ok(v, rest) => r == Got(v) && view == rest
    case Wrong => r == Failed
    case Beyond => r == Outside
  }

  function Drop(ts: seq<Token>, k: nat): seq<Token> {
    if k <= |ts| then ts[k..] else []
  }

  lemma DropTail(ts: seq<Token>, k: nat)
    ensures Tail(Drop(ts, k)) == Drop(ts, k + 1)
    ensures Drop(Tail(ts), k) == Drop(ts, k + 1)
  {
  }

  /** One token of the look-ahead. */
  lemma ScanToken(ts: seq<Token>, depth: nat)
    requires depth > 0
    ensures var t := Head(ts);
      LooksGeneric(ts, depth)
      == if t.TIdent? || t.TColonColon? || t.TBuiltin? || t.TCharType? || t.TStar? || t.TAmp? || t.TComma?
         then LooksGeneric(Tail(ts), depth)
         else if t.TLt? then LooksGeneric(Tail(ts), depth + 1)
         else if t.TGt? && depth == 1 then Head(Tail(ts)) == TLParen || Head(Tail(ts)) == TLBrace
         else t.TGt? && depth > 1 && LooksGeneric(Tail(ts), depth - 1)
    ensures Head(ts) != TEof ==> ts != []
  {
  }

  /** The buffer holds the tokens from position `k` on. */
  predicate Ahead(ts: seq<Token>, k: nat, buffer: seq<Token>) {
    forall i :: 0 <= i < |buffer| ==> buffer[i] == Head(Drop(ts, k + i))
  }

  lemma AheadMore(ts: seq<Token>, k: nat, buffer: seq<Token>)
    requires Ahead(ts, k, buffer)
    ensures Ahead(ts, k, buffer + [Head(Drop(ts, k + |buffer|))])
  {
    hide Drop;
  }

  lemma AheadLess(ts: seq<Token>, k: nat, buffer: seq<Token>)
    requires Ahead(ts, k, buffer) && buffer != []
    ensures buffer[0] == Head(Drop(ts, k)) && Ahead(ts, k + 1, buffer[1..])
  {
    hide Drop;
    forall i | 0 <= i < |buffer[1..]|
      ensures buffer[1..][i] == Head(Drop(ts, k + 1 + i))
    {
      assert buffer[1..][i] == buffer[i + 1];
    }
  }

  lemma AheadNone(ts: seq<Token>, k: nat)
    ensures Ahead(ts, k, [])
  {
  }

  lemma AheadAt(ts: seq<Token>, k: nat, buffer: seq<Token>, n: nat)
    requires Ahead(ts, k + 1, buffer) && n < |buffer|
    ensures buffer[n] == Head(Drop(Tail(Drop(ts, k)), n))
  {
    assert Drop(Tail(Drop(ts, k)), n) == Drop(ts, k + 1 + n);
  }

  class Parser {
    /** What the lexer delivers; `next` is its position. */
    const tokens: seq<Token>
    var next: nat
    var current: Token
    var previous: Token
    var buffer: seq<Token>

    predicate Valid()
      reads this
    {
      && next >= 1 + |buffer| && current == Head(View())
      && Ahead(tokens, next - |buffer|, buffer)
    }

    /** The tokens from the current one on. */
    function View(): seq<Token>
      reads this
    {
      if next >= 1 + |buffer| then Drop(tokens, next - 1 - |buffer|) else []
    }

    constructor (ts: seq<Token>)
      ensures Valid() && View() == ts
    {
      tokens, next, buffer := ts, 1, [];
      current, previous := Head(ts), TEof;
    }

    method NextToken() returns (t: Token)
      modifies `next
      ensures t == Head(Drop(tokens, old(next))) && next == old(next) + 1
    {
      t := if next < |tokens| then tokens[next] else TEof;
      next := next + 1;
    }

    /** The token `n` behind the current one; nothing is consumed. */
    method Peek(n: nat) returns (t: Token)
      requires Valid()
      modifies this
      ensures Valid() && View() == old(View()) && t == Head(Drop(Tail(View()), n))
    {
      hide Ahead, Drop;
      while |buffer| <= n
        invariant Valid() && View() == old(View()) && next - |buffer| == old(next - |buffer|)
        decreases n + 1 - |buffer|
      {
        AheadMore(tokens, next - |buffer|, buffer);
        var more := NextToken();
        buffer := buffer + [more];
      }
      t := buffer[n];
      AheadAt(tokens, next - 1 - |buffer|, buffer, n);
    }

    method Advance()
      requires Valid()
      modifies this
      ensures Valid() && View() == Tail(old(View())) && previous == old(current)
    {
      hide Ahead, Drop;
      DropTail(tokens, next - 1 - |buffer|);
      previous := current;
      if |buffer| > 0 {
        AheadLess(tokens, next - |buffer|, buffer);
        current := buffer[0];
        buffer := buffer[1..];
      } else {
        current := NextToken();
        AheadNone(tokens, next);
      }
    }

    method Match(t: Token) returns (found: bool)
      requires Valid()
      modifies this
      ensures Valid() && (found <==> Head(old(View())) == t)
      ensures View() == if found then Tail(old(View())) else old(View())
    {
      found := current == t;
      if found {
        Advance();
      }
    }

    method LooksLikeGenericArgs() returns (yes: bool)
      requires Valid()
      modifies this
      ensures Valid() && View() == old(View()) && yes == LooksGeneric(Tail(View()), 1)
    {
      hide LooksGeneric, Valid;
      ghost var ahead := Tail(View());
      var depth, i := 1, 0;
      while true
        invariant Valid() && View() == old(View()) && depth > 0
        invariant LooksGeneric(ahead, 1) == LooksGeneric(Drop(ahead, i), depth)
        decreases |ahead| - i
      {
        var t := Peek(i);
        ScanToken(Drop(ahead, i), depth);
        DropTail(ahead, i);
        match t {
          case TIdent(_) =>
          case TColonColon =>
          case TBuiltin(_) =>
          case TCharType =>
          case TStar =>
          case TAmp =>
          case TComma =>
          case TLt => depth := depth + 1;
          case TGt =>
            if depth == 1 {
              var after := Peek(i + 1);
              return after == TLParen || after == TLBrace;
            }
            depth := depth - 1;
          case _ => return false;
        }
        i := i + 1;
      }
    }

    method ParseTypeAt() returns (r: Outcome<Type>)
      requires Valid()
      modifies this
      ensures Valid() && Agrees(r, View(), ParseType(old(View())))
      decreases |View()|
    {
      hide Valid, View;
      CurrentIs();
      var t := current;
      match t {
        case TStar =>
          Advance();
          var b := ParseTypeAt();
          r := if b.Got? then Got(PointerTo(b.value)) else b;
        case TAmp =>
          Advance();
          var b := ParseTypeAt();
          r := if b.Got? then Got(ReferenceTo(b.value)) else b;
        case TBuiltin(k) =>
          Advance();
          r := Got(Builtin(k));
        case TCharType =>
          Advance();
          r := Got(Builtin(U8));
        case TIdent(_) => r := Outside;
        case _ => r := Failed;
      }
    }

    method ParseExprAt(level: nat) returns (r: Outcome<Expr>)
      requires Valid()
      modifies this
      ensures Valid() && Agrees(r, View(), ParseExpr(old(View()), level))
      decreases |View()|, 4
    {
      hide ParseOperand, Valid, View, Precedence, OpOf, CompoundOp;
      r := ParseOperandAt();
      if !r.Got? {
        return;
      }
      var left := r.value;
      CurrentIs();
      while Precedence(current) >= level
        invariant Valid() && current == Head(View()) && |View()| < |old(View())|
        invariant ExprLoop(left, View(), level) == ParseExpr(old(View()), level)
        decreases |View()|
      {
        var op := current;
        var prec := Precedence(op);
        Advance();
        if op == TEq {
          if !Assignable(left) {
            return Failed;
          }
          r := ParseExprAt(prec);
          if r.Got? {
            r := Got(Assign(left, r.value));
          }
          return;
        }
        if CompoundOp(op).Some? {
          r := ParseExprAt(prec);
          if r.Got? {
            r := Got(Assign(left, Binary(CompoundOp(op).value, left, r.value)));
          }
          return;
        }
        r := ParseExprAt(prec + 1);
        if !r.Got? {
          return;
        }
        left := Binary(OpOf(op), left, r.value);
        CurrentIs();
      }
      r := Got(left);
    }

    lemma CurrentIs()
      requires Valid()
      ensures current == Head(View())
    {
    }

    method ParseOperandAt() returns (r: Outcome<Expr>)
      requires Valid()
      modifies this
      ensures Valid() && Agrees(r, View(), ParseOperand(old(View())))
      decreases |View()|, 3
    {
      hide ParsePrefix, ParsePostfix, Valid;
      r := ParsePrefixAt();
      if r.Got? {
        r := ParsePostfixAt(r.value);
      }
    }

    method ParsePrefixAt() returns (r: Outcome<Expr>)
      requires Valid()
      modifies this
      ensures Valid() && Agrees(r, View(), ParsePrefix(old(View())))
      decreases |View()|, 2
    {
      hide ParseExpr, Valid, ParseUnary, View, IsTypeToken, Signed;
      CurrentIs();
      var t := current;
      match t {
        case TNumber(n) =>
          Advance();
          r := Got(Int(Signed(n)));
        case TTrue =>
          Advance();
          r := Got(Expr.Bool(true));
        case TFalse =>
          Advance();
          r := Got(Expr.Bool(false));
        case TNullPtr =>
          Advance();
          r := Got(Null);
        case TNot =>
          Advance();
          r := ParseUnaryAt(Not);
        case TMinus =>
          Advance();
          r := ParseUnaryAt(Neg);
        case TAmp =>
          Advance();
          r := ParseUnaryAt(AddrOf);
        case TIdent(x) =>
          Advance();
          var scoped := Match(TColonColon);
          r := if scoped then Outside else Got(Var(x));
        case TLParen =>
          Advance();
          r := ParseExprAt(0);
          if r.Got? {
            var closed := Match(TRParen);
            r := if closed then r else Failed;
          }
        case _ => r := if IsTypeToken(t) || t == TLBrace || t == TOther then Outside else Failed;
      }
    }

    method ParseUnaryAt(op: UnaryOp) returns (r: Outcome<Expr>)
      requires Valid()
      modifies this
      ensures Valid() && Agrees(r, View(), ParseUnary(op, old(View())))
      decreases |View()|, 5
    {
      hide ParseExpr, Valid;
      r := ParseExprAt(10);
      if r.Got? {
        r := Got(Unary(op, r.value));
      }
    }

    method ParsePostfixAt(first: Expr) returns (r: Outcome<Expr>)
      requires Valid()
      modifies this
      ensures Valid() && Agrees(r, View(), ParsePostfix(first, old(View())))
      decreases |View()|, 0
    {
      hide ParsePostfix, Valid, View;
      var left := first;
      var more := true;
      CurrentIs();
      while more
        invariant Valid() && current == Head(View()) && |View()| <= |old(View())|
        invariant if more then ParsePostfix(left, View()) == ParsePostfix(first, old(View()))
                  else Ok(left, View()) == ParsePostfix(first, old(View()))
        decreases |View()|, more
      {
        var step := PostfixStep(left);
        match step {
          case Got(None) => more := false;
          case Got(Some(e)) => left := e;
          case Failed => return Failed;
          case Outside => return Outside;
        }
        CurrentIs();
      }
      r := Got(left);
    }

    /** One turn of the loop; `None` when nothing more belongs to the operand. */
    method PostfixStep(left: Expr) returns (r: Outcome<Option<Expr>>)
      requires Valid()
      modifies this
      ensures Valid() && StepAgrees(left, old(View()), r, View())
      decreases |View()|, 0, 1
    {
      hide ParsePostfix, Valid, StepAgrees, Step;
      CurrentIs();
      match current {
        case TLt =>
          var next := Peek(0);
          var generic := false;
          if next.TIdent? || IsTypeToken(next) {
            generic := LooksLikeGenericArgs();
          }
          r := if generic then Outside else Got(None);
          LessStep(left, View(), r);
        case TLParen => r := CallStep(left);
        case TLBrace =>
          r := Outside;
          OtherStep(left, View(), r);
        case TLBracket => r := IndexStep(left);
        case TDot => r := FieldStep(left);
        case TPlusPlus => r := CountStep(left, Add);
        case TMinusMinus => r := CountStep(left, Sub);
        case TAs => r := CastStep(left);
        case _ =>
          r := Got(None);
          OtherStep(left, View(), r);
      }
    }

    method CallStep(left: Expr) returns (r: Outcome<Option<Expr>>)
      requires Valid() && Head(View()) == TLParen
      modifies this
      ensures Valid() && StepAgrees(left, old(View()), r, View())
      decreases |View()|, 0, 0
    {
      hide ParseArgs, Valid, ParseExpr, OpensTypeArgs;
      Advance();
      var a := ParseArgsAt();
      r := if a.Got? then Got(Some(Call(left, a.value))) else if a.Failed? then Failed else Outside;
    }

    method IndexStep(left: Expr) returns (r: Outcome<Option<Expr>>)
      requires Valid() && Head(View()) == TLBracket
      modifies this
      ensures Valid() && StepAgrees(left, old(View()), r, View())
      decreases |View()|, 0, 0
    {
      hide ParseArgs, Valid, ParseExpr, OpensTypeArgs;
      Advance();
      var i := ParseExprAt(0);
      if !i.Got? {
        return if i.Failed? then Failed else Outside;
      }
      var closed := Match(TRBracket);
      r := if closed then Got(Some(Index(left, i.value))) else Failed;
    }

    method FieldStep(left: Expr) returns (r: Outcome<Option<Expr>>)
      requires Valid() && Head(View()) == TDot
      modifies this
      ensures Valid() && StepAgrees(left, old(View()), r, View())
    {
      hide ParseArgs, Valid, ParseExpr, OpensTypeArgs;
      Advance();
      CurrentIs();
      if current.TIdent? {
        var x := current.text;
        Advance();
        r := Got(Some(Field(left, x)));
      } else {
        r := Failed;
      }
    }

    method CountStep(left: Expr, op: BinaryOp) returns (r: Outcome<Option<Expr>>)
      requires Valid() && Head(View()) == (if op == Add then TPlusPlus else TMinusMinus) && (op == Add || op == Sub)
      modifies this
      ensures Valid() && StepAgrees(left, old(View()), r, View())
    {
      hide ParseArgs, Valid, ParseExpr, OpensTypeArgs;
      Advance();
      r := if Assignable(left) then Got(Some(Step(left, op))) else Failed;
    }

    method CastStep(left: Expr) returns (r: Outcome<Option<Expr>>)
      requires Valid() && Head(View()) == TAs
      modifies this
      ensures Valid() && StepAgrees(left, old(View()), r, View())
    {
      hide ParseArgs, Valid, ParseExpr, OpensTypeArgs, ParseType;
      Advance();
      var bits := Match(TNot);
      var t := ParseTypeAt();
      r := if t.Got? then Got(Some(Cast(left, t.value, if bits then Bitcast else ValueCast)))
      else if t.Failed? then Failed else Outside;
    }

    method ParseArgsAt() returns (r: Outcome<seq<Expr>>)
      requires Valid()
      modifies this
      ensures Valid() && Agrees(r, View(), ParseArgs(old(View())))
      decreases |View()|, 6
    {
      hide Valid, ParseExpr;
      var none := Match(TRParen);
      if none {
        return Got([]);
      }
      var args := [];
      while true
        invariant Valid() && MoreArgs(args, View()) == ParseArgs(old(View()))
        invariant |View()| <= |old(View())|
        decreases |View()|
      {
        var e := ParseExprAt(0);
        if !e.Got? {
          return if e.Failed? then Failed else Outside;
        }
        args := args + [e.value];
        var comma := Match(TComma);
        if !comma {
          var closed := Match(TRParen);
          return if closed then Got(args) else Failed;
        }
      }
    }
  }

  /** What one turn of the postfix loop has to do with the specification. */
  ghost predicate StepAgrees(left: Expr, ts: seq<Token>, r: Outcome<Option<Expr>>, view: seq<Token>) {
    match r
    case Got(Some(e)) => |view| < |ts| && ParsePostfix(left, ts) == ParsePostfix(e, view)
    case Got(None) => view == ts && ParsePostfix(left, ts) == Ok(left, ts)
    case Failed => ParsePostfix(left, ts) == Wrong
    case Outside => ParsePostfix(left, ts) == Beyond
  }

  lemma LessStep(left: Expr, ts: seq<Token>, r: Outcome<Option<Expr>>)
    requires Head(ts) == TLt && r == if OpensTypeArgs(Tail(ts)) then Outside else Got(None)
    ensures StepAgrees(left, ts, r, ts)
  {
    hide OpensTypeArgs;
  }

  lemma OtherStep(left: Expr, ts: seq<Token>, r: Outcome<Option<Expr>>)
    requires var t := Head(ts);
      && !t.TLt? && !t.TLParen? && !t.TLBracket? && !t.TDot? && !t.TPlusPlus? && !t.TMinusMinus? && !t.TAs?
      && r == if t.TLBrace? then Outside else Got(None)
    ensures StepAgrees(left, ts, r, ts)
  {
    hide OpensTypeArgs, ParseExpr, ParseArgs;
  }
}
