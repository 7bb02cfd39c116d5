/** Bytes and little-endian numbers. */
module Bytes {
  import opened Words

  type Byte = b: int | 0 <= b < 256

  const TWO31: int := 0x8000_0000
  const TWO32: int := 0x1_0000_0000

  function LittleEndian(n: nat, v: nat): (s: seq<Byte>)
    ensures |s| == n
  {
    if n == 0 then [] else [v % 256] + LittleEndian(n - 1, v / 256)
  }

  function FromBytes(s: seq<Byte>): nat {
    if s == [] then 0 else s[0] + 256 * FromBytes(s[1..])
  }

  function Pow256(n: nat): (p: nat)
    ensures p > 0
  {
    if n == 0 then 1 else 256 * Pow256(n - 1)
  }

  lemma {:induction false} BytesBack(n: nat, v: nat)
    requires v < Pow256(n)
    ensures FromBytes(LittleEndian(n, v)) == v
  {
    if n > 0 {
      BytesBack(n - 1, v / 256);
      assert LittleEndian(n, v)[1..] == LittleEndian(n - 1, v / 256);
    }
  }

  lemma PowValues()
    ensures Pow256(1) == 256 && Pow256(4) == TWO32 && Pow256(8) == TWO64
  {
    assert Pow256(2) == 0x1_0000 && Pow256(3) == 0x100_0000;
    assert Pow256(5) == 0x100_0000_0000 && Pow256(6) == 0x1_0000_0000_0000 && Pow256(7) == 0x100_0000_0000_0000;
  }

  /** `u32` of a signed or unsigned number. */
  function Bytes4(v: int): (s: seq<Byte>)
    ensures |s| == 4
  {
    LittleEndian(4, v % TWO32)
  }

  /** Byte `i` of a number. */
  lemma {:induction false} ByteOf(n: nat, v: nat, i: nat)
    requires i < n
    ensures LittleEndian(n, v)[i] == v / Pow256(i) % 256
  {
    if i == 0 {
      assert Pow256(0) == 1;
    } else {
      hide Pow256;
      ByteOf(n - 1, v / 256, i - 1);
      DivPow(v, i - 1);
    }
  }

  lemma DivPow(v: nat, i: nat)
    ensures v / 256 / Pow256(i) == v / Pow256(i + 1)
  {
    DivDiv(v, 256, Pow256(i));
  }

  lemma DivDiv(v: nat, a: nat, b: nat)
    requires a > 0 && b > 0
    ensures a * b > 0 && v / a / b == v / (a * b)
  {
    var q := v / a;
    MulPositive(a, b);
    Collect(v, a, b, q, v % a, q / b, q % b);
    Small(a, b, v % a, q % b);
    QuotientIs(v, a * b, q / b, a * (q % b) + v % a);
  }

  lemma MulPositive(a: nat, b: nat)
    requires a > 0 && b > 0
    ensures a * b > 0
  {
  }

  lemma Collect(v: int, a: int, b: int, q: int, r: int, q': int, r': int)
    requires v == a * q + r && q == b * q' + r'
    ensures v == a * b * q' + (a * r' + r)
  {
    Distribute(a, b, q', r');
  }

  lemma Distribute(a: int, b: int, q: int, r: int)
    ensures a * (b * q + r) == a * b * q + a * r
  {
  }

  lemma Small(a: nat, b: nat, r: nat, r': nat)
    requires r < a && r' < b
    ensures 0 <= a * r' + r < a * b
  {
    MulMono(r', b - 1, a);
    Distribute(a, 1, b, -1);
  }

  lemma QuotientIs(v: nat, d: nat, q: nat, r: nat)
    requires d > 0 && r < d && v == d * q + r
    ensures v / d == q
  {
    var k := v / d;
    assert v == d * k + v % d;
    if k > q {
      MulMono(q + 1, k, d);
    } else if k < q {
      MulMono(k + 1, q, d);
    }
  }
}
