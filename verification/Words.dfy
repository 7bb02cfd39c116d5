/** 64-bit machine words as the IR sees them, and integer binary operators. */
module Words {
  const TWO63: int := 0x8000_0000_0000_0000
  const TWO64: int := 0x1_0000_0000_0000_0000

  /** The content of a register: 64 bits read as an unsigned number. */
  type Word = w: int | 0 <= w < TWO64

  /** An `int64_t`. */
  type Int64 = i: int | -TWO63 <= i < TWO63

  datatype Option<+T> = None | Some(value: T)

  datatype TypeKind =
    | Void | Bool
    | I8 | I16 | I32 | I64
    | U8 | U16 | U32 | U64
    | F32 | F64
    | Str | Struct | Pointer | Reference | NullPtr | Generic

  datatype BinaryOp =
    | Add | Sub | Mul | Div
    | Eq | NotEq | Lt | Lte | Gt | Gte
    | BitAnd | BitOr | LogicAnd | LogicOr

  predicate IsSignedIntKind(k: TypeKind) {
    k == I8 || k == I16 || k == I32 || k == I64
  }

  predicate IsScalarIntKind(k: TypeKind) {
    IsSignedIntKind(k) || k == U8 || k == U16 || k == U32 || k == U64 || k == Bool
  }

  predicate IsFloatKind(k: TypeKind) {
    k == F32 || k == F64
  }

  /** Arithmetic modulo 2^64. */
  function Wrap(i: int): Word {
    i % TWO64
  }

  /** The two's complement reading of a word: `static_cast<int64_t>`. */
  function Signed(w: Word): Int64 {
    if w < TWO63 then w else w - TWO64
  }

  /** `static_cast<uint64_t>`. */
  function Unsigned(i: Int64): Word {
    if i >= 0 then i else i + TWO64
  }

  lemma SignedUnsigned(i: Int64)
    ensures Signed(Unsigned(i)) == i
  {
  }

  function FromBool(b: bool): Word {
    if b then 1 else 0
  }

  /** Division that truncates toward zero, as C++ and `idiv` do. */
  function TruncDiv(a: int, b: int): int
    requires b != 0
  {
    if a >= 0 then (if b > 0 then a / b else -(a / -b))
    else (if b > 0 then -(-a / b) else -a / -b)
  }

  function Abs(a: int): int {
    if a >= 0 then a else -a
  }

  lemma TruncDivRange(a: Int64, b: Int64)
    requires b != 0 && !(a == -TWO63 && b == -1)
    ensures -TWO63 <= TruncDiv(a, b) < TWO63
  {
    DivBound(Abs(a), Abs(b));
  }

  lemma DivBound(x: int, y: int)
    requires x >= 0 && y >= 1
    ensures 0 <= x / y <= x
    ensures y >= 2 && x >= 1 ==> x / y < x
  {
    if x / y > x || (y >= 2 && x >= 1 && x / y >= x) {
      var q := x / y;
      assert x == y * q + x % y;
      if q > x {
        MulGe(y, q);
      } else {
        assert y * q >= 2 * q by { MulMono(2, y, q); }
      }
    }
  }

  lemma MulGe(y: int, q: int)
    requires y >= 1 && q >= 0
    ensures y * q >= q
  {
    MulMono(1, y, q);
  }

  lemma MulMono(a: int, b: int, q: int)
    requires a <= b && 0 <= q
    ensures a * q <= b * q
  {
  }

  function Pow2(n: nat): (p: int)
    ensures p >= 1
  {
    if n == 0 then 1 else 2 * Pow2(n - 1)
  }

  /** Bitwise conjunction of two `n`-bit numbers. */
  function AndBits(n: nat, a: int, b: int): (r: int)
    requires 0 <= a < Pow2(n) && 0 <= b < Pow2(n)
    ensures 0 <= r < Pow2(n)
  {
    if n == 0 then 0
    else 2 * AndBits(n - 1, a / 2, b / 2) + (a % 2) * (b % 2)
  }

  /** Bitwise disjunction of two `n`-bit numbers. */
  function OrBits(n: nat, a: int, b: int): (r: int)
    requires 0 <= a < Pow2(n) && 0 <= b < Pow2(n)
    ensures 0 <= r < Pow2(n)
  {
    if n == 0 then 0
    else 2 * OrBits(n - 1, a / 2, b / 2) + (if a % 2 == 1 || b % 2 == 1 then 1 else 0)
  }

  lemma {:induction false} AndZero(n: nat, a: int)
    requires 0 <= a < Pow2(n)
    ensures AndBits(n, a, 0) == 0 && AndBits(n, 0, a) == 0
  {
    if n > 0 {
      AndZero(n - 1, a / 2);
    }
  }

  lemma {:induction false} OrZero(n: nat, a: int)
    requires 0 <= a < Pow2(n)
    ensures OrBits(n, a, 0) == a && OrBits(n, 0, a) == a
  {
    if n > 0 {
      OrZero(n - 1, a / 2);
    }
  }

  lemma Pow2Is64()
    ensures Pow2(64) == TWO64
  {
    assert Pow2(8) == 0x100;
    assert Pow2(16) == 0x1_0000;
    assert Pow2(24) == 0x100_0000;
    assert Pow2(32) == 0x1_0000_0000;
    assert Pow2(40) == 0x100_0000_0000;
    assert Pow2(48) == 0x1_0000_0000_0000;
    assert Pow2(56) == 0x100_0000_0000_0000;
  }

  function And64(a: Word, b: Word): Word {
    Pow2Is64();
    AndBits(64, a, b)
  }

  function Or64(a: Word, b: Word): Word {
    Pow2Is64();
    OrBits(64, a, b)
  }

  /** The meaning of an integer binary instruction on register words: what the
      processor computes, or `None` when it traps. */
  function EvalInt(op: BinaryOp, kind: TypeKind, a: Word, b: Word): Option<Word>
    requires IsScalarIntKind(kind)
  {
    var signed := IsSignedIntKind(kind);
    match op
    case Add => Some(Wrap(a + b))
    case Sub => Some(Wrap(a - b))
    case Mul => Some(Wrap(a * b))
    case Div =>
      if b == 0 then None
      else if !signed then Some(Wrap(a / b))
      else if Signed(a) == -TWO63 && Signed(b) == -1 then None
      else Some(Wrap(TruncDiv(Signed(a), Signed(b))))
    case Eq => Some(FromBool(a == b))
    case NotEq => Some(FromBool(a != b))
    case Lt => Some(FromBool(if signed then Signed(a) < Signed(b) else a < b))
    case Lte => Some(FromBool(if signed then Signed(a) <= Signed(b) else a <= b))
    case Gt => Some(FromBool(if signed then Signed(a) > Signed(b) else a > b))
    case Gte => Some(FromBool(if signed then Signed(a) >= Signed(b) else a >= b))
    case BitAnd => Some(And64(a, b))
    case BitOr => Some(Or64(a, b))
    case LogicAnd => Some(FromBool(a != 0 && b != 0))
    case LogicOr => Some(FromBool(a != 0 || b != 0))
  }

  /** Numbers below `n` are at most `n`, and all of them if they are `n`. */
  lemma {:induction false} UpToSize(s: set<nat>, n: nat)
    requires forall x :: x in s ==> x < n
    ensures |s| <= n
    ensures |s| == n ==> forall x: nat :: x < n ==> x in s
  {
    if n > 0 {
      var s' := s - {n - 1};
      UpToSize(s', n - 1);
      if n - 1 in s {
        assert s == s' + {n - 1};
      } else {
        assert s == s';
      }
    }
  }
}
