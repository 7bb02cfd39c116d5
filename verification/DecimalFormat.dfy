/** Decimal formatting of integers in a 32-byte scratch buffer. */
module DecimalFormat {
  import opened Words

  const MINUS := 45
  const ZERO := 48

  // --- reading a number back ---

  /** The bytes before the first NUL. */
  function CString(s: seq<int>): seq<int> {
    if s == [] || s[0] == 0 then [] else [s[0]] + CString(s[1..])
  }

  predicate IsDigit(c: int) {
    ZERO <= c <= ZERO + 9
  }

  predicate AllDigits(s: seq<int>) {
    forall i :: 0 <= i < |s| ==> IsDigit(s[i])
  }

  /** The value of a row of digits. */
  function ValueOf(s: seq<int>): nat
    requires AllDigits(s)
  {
    if s == [] then 0 else 10 * ValueOf(s[..|s| - 1]) + (s[|s| - 1] - ZERO)
  }

  /** A number as one writes it: at least one digit, no needless zero in front. */
  predicate Proper(s: seq<int>) {
    s != [] && AllDigits(s) && (|s| > 1 ==> s[0] != ZERO)
  }

  function Minus(v: int): int {
    -v
  }

  /** What a text stands for, if it is a properly written integer. */
  function Read(s: seq<int>): Option<int> {
    if Proper(s) then Some(ValueOf(s))
    else if s != [] && s[0] == MINUS && Proper(s[1..]) then Some(Minus(ValueOf(s[1..])))
    else None
  }

  // --- the digits of a number ---

  function Digits(v: nat): (s: seq<int>)
    ensures Proper(s) && (v > 0 ==> s[0] != ZERO)
  {
    if v < 10 then [ZERO + v] else Digits(v / 10) + [ZERO + v % 10]
  }

  lemma {:induction false} DigitsValue(v: nat)
    ensures ValueOf(Digits(v)) == v
  {
    if v < 10 {
      assert Digits(v)[..0] == [];
    } else {
      DigitsValue(v / 10);
      assert Digits(v)[..|Digits(v)| - 1] == Digits(v / 10);
    }
  }

  function Pow10(n: nat): (p: nat)
    ensures p > 0
  {
    if n == 0 then 1 else 10 * Pow10(n - 1)
  }

  lemma {:induction false} DigitsLength(v: nat, n: nat)
    requires v < Pow10(n) && n > 0
    ensures |Digits(v)| <= n
  {
    if v >= 10 {
      assert n > 1;
      DigitsLength(v / 10, n - 1);
    }
  }

  /** 64 bits take at most 20 digits. */
  lemma WordDigits(v: Word)
    ensures |Digits(v)| <= 20
  {
    assert Pow10(5) == 100000;
    assert Pow10(10) == 10000000000;
    assert Pow10(15) == 1000000000000000;
    assert Pow10(20) == 100000000000000000000;
    DigitsLength(v, 20);
  }

  lemma {:induction false} CStringOf(s: seq<int>, rest: seq<int>)
    requires forall i :: 0 <= i < |s| ==> s[i] != 0
    ensures CString(s + [0] + rest) == s
  {
    var t := s + [0] + rest;
    if s != [] {
      assert t[1..] == s[1..] + [0] + rest;
      CStringOf(s[1..], rest);
    }
  }

  lemma DigitsZero()
    ensures Digits(0) == [ZERO]
  {
  }

  /** The last digit comes off. */
  lemma LastDigit(v: nat, after: seq<int>)
    requires v > 0
    ensures Digits(v) + after == (if v / 10 == 0 then [] else Digits(v / 10)) + ([ZERO + v % 10] + after)
  {
  }

  // --- the buffer ---

  /** `digits_u64`: the digits backwards, ending at index 30. */
  method DigitsU64(v: Word, p: array<int>) returns (i: int)
    requires p.Length == 32
    modifies p
    ensures i == 30 - |Digits(v)| && i >= 10
    ensures p[i + 1..31] == Digits(v)
    ensures p[..i + 1] == old(p[..i + 1]) && p[31] == old(p[31])
  {
    hide Digits;
    var val := v;
    i := 30;
    WordDigits(v);
    DigitsZero();
    if val == 0 {
      p[i] := 48;
      i := i - 1;
    } else {
      assert Digits(v) + [] == Digits(v);
      while val != 0
        invariant 0 <= val && 10 <= i <= 30 && |Digits(v)| <= 20
        invariant Digits(v) == (if val == 0 then [] else Digits(val)) + p[i + 1..31]
        invariant p[..i + 1] == old(p[..i + 1]) && p[31] == old(p[31])
      {
        ghost var after := p[i + 1..31];
        var q := val / 10;
        var r := val - q * 10;
        p[i] := 48 + r;
        assert p[i..31] == [48 + r] + after;
        LastDigit(val, after);
        val := q;
        i := i - 1;
      }
    }
  }

  /** `finish`: the digits move to the front, in place; no digit is overwritten
      before it has been read. */
  method Finish(p: array<int>, first: int, neg: int)
    requires p.Length == 32 && 10 <= first <= 29 && 0 <= neg <= 1
    requires forall k :: first < k <= 30 ==> p[k] != 0
    modifies p
    ensures CString(p[..]) == (if neg != 0 then [MINUS] else []) + old(p[first + 1..31])
  {
    hide CString;
    ghost var digits := p[first + 1..31];
    var src := first + 1;
    var dst := neg;
    while src <= 30
      invariant first + 1 <= src <= 31 && dst - neg == src - (first + 1)
      invariant p[neg..dst] == digits[..dst - neg]
      invariant p[src..31] == digits[dst - neg..]
      decreases 31 - src
    {
      assert p[src] == p[src..31][0] == digits[dst - neg];
      p[dst] := p[src];
      src := src + 1;
      dst := dst + 1;
    }
    if neg != 0 {
      p[0] := 45;
    }
    p[dst] := 0;
    ghost var text := (if neg != 0 then [MINUS] else []) + digits;
    assert p[neg..dst] == digits;
    Placed(p[..], neg, dst, digits);
    CStringOf(text, p[dst + 1..]);
  }

  /** The sign, the digits, the NUL, and the rest. */
  lemma Placed(s: seq<int>, neg: int, dst: int, digits: seq<int>)
    requires 0 <= neg <= 1 && neg <= dst < |s| && s[neg..dst] == digits && s[dst] == 0 && (neg != 0 ==> s[0] == MINUS)
    ensures s == (if neg != 0 then [MINUS] else []) + digits + [0] + s[dst + 1..]
  {
    assert s == s[..neg] + s[neg..dst] + [s[dst]] + s[dst + 1..];
    assert s[..neg] == if neg != 0 then [MINUS] else [];
  }

  /** The digits of `v`, behind a minus sign if `neg` is set. */
  method Write(v: Word, neg: int, p: array<int>)
    requires p.Length == 32 && 0 <= neg <= 1
    modifies p
    ensures CString(p[..]) == (if neg != 0 then [MINUS] else []) + Digits(v)
  {
    hide CString;
    var i := DigitsU64(v, p);
    forall k | i < k <= 30
      ensures p[k] != 0
    {
      assert p[k] == p[i + 1..31][k - i - 1];
      assert IsDigit(Digits(v)[k - i - 1]);
    }
    Finish(p, i, neg);
  }

  /** `format_u64`: reading the text gives the number back. */
  method FormatU64(v: Word, p: array<int>)
    requires p.Length == 32
    modifies p
    ensures CString(p[..]) == Digits(v) && Read(CString(p[..])) == Some(v)
  {
    hide CString, Digits;
    DigitsValue(v);
    Write(v, 0, p);
  }

  /** `0 - v` in 64 bits. */
  function Negate(v: Int64): Int64 {
    if v == -TWO63 then v else -v
  }

  /** `format_i64`: so it does for every signed number, the least one included. */
  method FormatI64(v: Int64, p: array<int>)
    requires p.Length == 32
    modifies p
    ensures CString(p[..]) == (if v < 0 then [MINUS] else []) + Digits(Abs(v))
    ensures Read(CString(p[..])) == Some(v)
  {
    hide CString, Digits;
    var neg := 0;
    var val: Word := 0;
    if v < 0 {
      neg := 1;
      val := Unsigned(Negate(v));
    } else {
      val := Unsigned(v);
    }
    assert val == Abs(v);
    DigitsValue(val);
    Write(val, neg, p);
    if v < 0 {
      ReadMinus(Digits(val));
    } else {
      assert [] + Digits(val) == Digits(val);
    }
  }

  lemma ReadMinus(s: seq<int>)
    requires Proper(s)
    ensures Read([MINUS] + s) == Some(Minus(ValueOf(s)))
  {
    assert ([MINUS] + s)[1..] == s;
  }
}
