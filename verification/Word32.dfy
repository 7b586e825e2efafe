/** 32-bit words and their bytes. */
module Word32 {
  import Bytecode

  const TOP := 0x1_0000_0000

  type Byte = Bytecode.Byte
  type Word = Bytecode.U32

  function Add(x: int, y: int): Word { (x + y) % TOP }

  function Sub(x: int, y: int): Word { (x - y) % TOP }

  function Mul(x: int, y: int): Word { (x * y) % TOP }

  function Pow2(n: nat): (p: nat)
    ensures p >= 1
  {
    if n == 0 then 1 else 2 * Pow2(n - 1)
  }

  function Shl(x: Word, n: nat): Word { (x * Pow2(n)) % TOP }

  function Shr(x: Word, n: nat): (r: Word) { ShrLess(x, n); x / Pow2(n) }

  lemma ShrLess(x: Word, n: nat)
    ensures 0 <= x / Pow2(n) <= x
  {
    var p := Pow2(n);
    DivLess(x, p);
  }

  lemma DivLess(x: nat, p: nat)
    requires p >= 1
    ensures 0 <= x / p <= x
  {
    var q := x / p;
    assert x == p * q + x % p;
    assert q >= 0;
    MulGrows(p, q);
  }

  lemma MulGrows(p: nat, q: nat)
    requires p >= 1
    ensures p * q >= q
  {
  }

  /** The exclusive or of the low n bits. */
  function XorBits(x: nat, y: nat, n: nat): (r: nat)
    ensures r < Pow2(n)
  {
    if n == 0 then 0 else (if x % 2 == y % 2 then 0 else 1) + 2 * XorBits(x / 2, y / 2, n - 1)
  }

  lemma {:induction false} XorBitsBack(x: nat, y: nat, n: nat)
    requires x < Pow2(n)
    ensures XorBits(XorBits(x, y, n), y, n) == x
  {
    if n > 0 {
      XorBitsBack(x / 2, y / 2, n - 1);
      var r := XorBits(x, y, n);
      assert r / 2 == XorBits(x / 2, y / 2, n - 1);
    }
  }

  lemma Pow32()
    ensures Pow2(32) == TOP
  {
    assert Pow2(8) == 0x100;
    assert Pow2(16) == 0x1_0000;
    assert Pow2(24) == 0x100_0000;
  }

  function Xor(x: Word, y: Word): Word { Pow32(); XorBits(x, y, 32) }

  lemma XorBack(x: Word, y: Word)
    ensures Xor(Xor(x, y), y) == x
  {
    Pow32();
    XorBitsBack(x, y, 32);
  }

  lemma AddBack(x: Word, y: Word)
    ensures Add(Sub(x, y), y) == x && Sub(Add(x, y), y) == x
  {
  }

  /** A rotation: the two shifted parts have no bit in common, so that joining them is adding them. */
  function Ror(x: Word, n: nat): Word {
    var k := n % 32;
    RotateFits(x, 32 - k, k);
    Shr(x, k) + Shl(x, 32 - k)
  }

  function Rol(x: Word, n: nat): Word {
    var k := n % 32;
    RotateFits(x, k, 32 - k);
    Shl(x, k) + Shr(x, 32 - k)
  }

  lemma {:induction false} PowSum(k: nat, m: nat)
    ensures Pow2(k) * Pow2(m) == Pow2(k + m)
    decreases k
  {
    if k > 0 {
      PowSum(k - 1, m);
      assert Pow2(k) * Pow2(m) == 2 * (Pow2(k - 1) * Pow2(m));
    }
  }

  /** Rotating by k: x is hi * q + lo with q = 2^(32-k), and becomes lo * 2^k + hi. */
  lemma Rotated(x: Word, p: nat, q: nat) returns (hi: nat, lo: nat)
    requires p >= 1 && q >= 1 && p * q == TOP
    ensures hi < p && lo < q && x == hi * q + lo
    ensures x / q == hi && (x * p) % TOP == lo * p && lo * p + hi < TOP
  {
    hi, lo := x / q, x % q;
    HiLess(hi, p, q, x);
    Swapped(hi, lo, p, q);
    ModTop(lo * p, hi);
  }

  lemma HiLess(hi: nat, p: nat, q: nat, x: nat)
    requires q >= 1 && hi * q <= x < p * q
    ensures hi < p
  {
    if hi >= p {
      MulMono(p, hi, q);
      assert false;
    }
  }

  lemma Swapped(hi: nat, lo: nat, p: nat, q: nat)
    requires hi < p && lo < q
    ensures (hi * q + lo) * p == lo * p + (p * q) * hi
    ensures lo * p + hi < p * q
  {
    assert (hi * q + lo) * p == hi * q * p + lo * p;
    assert hi * q * p == (p * q) * hi;
    MulMono(lo + 1, q, p);
    assert (lo + 1) * p == lo * p + p;
  }

  lemma ModTop(a: nat, t: nat)
    requires a < TOP
    ensures (a + TOP * t) % TOP == a
  {
  }

  lemma MulMono(a: nat, b: nat, c: nat)
    requires a <= b
    ensures a * c <= b * c
  {
  }

  lemma RotateFits(x: Word, k: nat, m: nat)
    requires k + m == 32
    ensures Shl(x, k) + Shr(x, m) < TOP
  {
    Pow32();
    PowSum(k, m);
    var hi, lo := Rotated(x, Pow2(k), Pow2(m));
  }

  lemma RolBack(x: Word, k: nat, m: nat)
    requires k + m == 32
    ensures Shl(x, k) + Shr(x, m) < TOP
    ensures Shl(Shl(x, k) + Shr(x, m), m) + Shr(Shl(x, k) + Shr(x, m), k) == x
  {
    RotateFits(x, k, m);
    Pow32();
    PowSum(k, m);
    var p, q := Pow2(k), Pow2(m);
    var hi, lo := Rotated(x, p, q);
    var y := lo * p + hi;
    assert q * p == p * q;
    var hi', lo' := Rotated(y, q, p);
    Split(hi', lo', lo, hi, p);
  }

  lemma SplitLess(a: nat, b: nat, c: nat, d: nat, p: nat)
    requires b < p && a < c
    ensures a * p + b < c * p + d
  {
    MulMono(a + 1, c, p);
    assert (a + 1) * p == a * p + p;
  }

  lemma Split(a: nat, b: nat, c: nat, d: nat, p: nat)
    requires b < p && d < p && a * p + b == c * p + d
    ensures a == c && b == d
  {
    if a < c {
      SplitLess(a, b, c, d, p);
      assert false;
    } else if c < a {
      SplitLess(c, d, a, b, p);
      assert false;
    }
  }

  lemma RorRol(x: Word, n: nat)
    ensures Rol(Ror(x, n), n) == x && Ror(Rol(x, n), n) == x
  {
    hide Shl, Shr;
    var k := n % 32;
    RolBack(x, k, 32 - k);
    RolBack(x, 32 - k, k);
  }

  // ---- bytes, low byte first ----

  function Le32(b: seq<Byte>): Word
    requires |b| == 4
  {
    b[0] as int + 0x100 * b[1] as int + 0x1_0000 * b[2] as int + 0x100_0000 * b[3] as int
  }

  /** The low four bytes. */
  function Bytes4(x: int): (b: seq<Byte>)
    ensures |b| == 4
  {
    [x % 0x100, x / 0x100 % 0x100, x / 0x1_0000 % 0x100, x / 0x100_0000 % 0x100]
  }

  lemma Bytes4Le(x: int)
    ensures Le32(Bytes4(x)) == x % TOP
  {
    var a := x / 0x100;
    var b := a / 0x100;
    var c := b / 0x100;
    assert x / 0x1_0000 == b && x / 0x100_0000 == c && x / TOP == c / 0x100;
  }

  lemma Digit(d: Byte, r: int)
    ensures (d + 0x100 * r) % 0x100 == d && (d + 0x100 * r) / 0x100 == r
  {
  }

  lemma Bytes4By(x: int, r1: int, r2: int)
    requires x / 0x100 == r1 && r1 / 0x100 == r2
    ensures x / 0x1_0000 == r2 && x / 0x100_0000 == r2 / 0x100
  {
  }

  lemma LeBytes4(b: seq<Byte>)
    requires |b| == 4
    ensures Bytes4(Le32(b)) == b
  {
    var x := Le32(b);
    var r2 := b[2] + 0x100 * b[3] as int;
    var r1 := b[1] + 0x100 * r2;
    assert x == b[0] + 0x100 * r1;
    Digit(b[0], r1);
    Digit(b[1], r2);
    Digit(b[2], b[3]);
    Bytes4By(x, r1, r2);
  }

  lemma Bytes4Wraps(x: int, t: int)
    ensures Bytes4(x + TOP * t) == Bytes4(x)
  {
    DivPlus(x, 0x100, 0x100_0000 * t);
    DivPlus(x, 0x1_0000, 0x1_0000 * t);
    DivPlus(x, 0x100_0000, 0x100 * t);
    ByteShift(x, 0x100_0000 * t);
    ByteShift(x / 0x100, 0x1_0000 * t);
    ByteShift(x / 0x1_0000, 0x100 * t);
    ByteShift(x / 0x100_0000, t);
  }

  lemma DivPlus(x: int, d: nat, t: int)
    requires d > 0
    ensures (x + d * t) / d == x / d + t
  {
    var q, m := x / d, x % d;
    assert x + d * t == d * (q + t) + m;
    DivIs(x + d * t, d, q + t, m);
  }

  lemma DivIs(x: int, d: nat, q: int, m: nat)
    requires d > 0 && x == d * q + m && m < d
    ensures x / d == q
  {
    var q', m' := x / d, x % d;
    assert d * (q - q') == m' - m;
    if q > q' {
      MulMono(1, q - q', d);
      assert false;
    } else if q < q' {
      MulMono(1, q' - q, d);
      assert false;
    }
  }

  lemma ByteShift(x: int, t: int)
    ensures (x + 0x100 * t) % 0x100 == x % 0x100
  {
  }
}
