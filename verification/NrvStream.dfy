/**
 The NRV2B stream from the writer's side: how tokens are written as bits and bytes, and that the decompressor's tokens
 are exactly what was written.
 */
module NrvStream {
  import opened Word32
  import opened Nrv

  /** A bit off the bit buffer, or a byte taken whole. */
  datatype Item = Bit(v: int) | Raw(b: Byte)

  datatype Taken = Took(s: Bits) | Not

  /** Where the stream stands after these items, if these are what it yields. */
  function Take(data: seq<Byte>, s: Bits, items: seq<Item>): (t: Taken)
    requires s.pos <= |data|
    ensures t.Took? ==> t.s.pos <= |data|
    decreases |items|
  {
    if items == [] then Took(s) else
    var r := if items[0].Bit? then GetBit(data, s) else GetByte(data, s);
    if r.Read? && r.v == (if items[0].Bit? then items[0].v else items[0].b) then Take(data, r.s, items[1..]) else Not
  }

  lemma {:induction false} TakeBoth(data: seq<Byte>, s: Bits, a: seq<Item>, b: seq<Item>)
    requires s.pos <= |data|
    ensures Take(data, s, a + b) == if Take(data, s, a).Took? then Take(data, Take(data, s, a).s, b) else Not
    decreases |a|
  {
    hide GetBit, GetByte;
    if a == [] {
      assert a + b == b;
    } else {
      assert (a + b)[0] == a[0] && (a + b)[1..] == a[1..] + b;
      var r := if a[0].Bit? then GetBit(data, s) else GetByte(data, s);
      if r.Read? {
        TakeBoth(data, r.s, a[1..], b);
      }
    }
  }

  // ---- the bits of a byte ----

  /** The k lowest bits of x, lowest first. */
  function BitsOf(x: nat, k: nat): seq<Item> { if k == 0 then [] else [Bit(x % 2)] + BitsOf(x / 2, k - 1) }

  /** From an empty buffer a byte of 2 or more yields its eight bits, lowest first, and then a 1; 0 and 1 one bit. */
  lemma ByteYields(data: seq<Byte>, pos: nat)
    requires pos < |data|
    ensures var b := data[pos] as int;
      if b < 2 then Take(data, Bits(pos, 0), [Bit(b)]) == Took(Bits(pos + 1, 0x80))
      else Take(data, Bits(pos, 0), BitsOf(0x100 + b, 9)) == Took(Bits(pos + 1, 0))
  {
    hide Take, BitsOf;
    if data[pos] < 2 {
      var x := data[pos] as int + 0x100;
      FirstBit(data, Bits(pos, 0), []);
      TakeNone(data, Bits(pos + 1, x / 2));
      assert [Bit(x % 2)] + [] == [Bit(data[pos])];
    } else {
      NineBits(data, pos, 9);
    }
  }

  lemma BitsOn(x: nat, k: nat)
    requires k > 0
    ensures BitsOf(x, k) == [Bit(x % 2)] + BitsOf(x / 2, k - 1)
  {
  }

  lemma NineBits(data: seq<Byte>, pos: nat, n: nat)
    requires pos < |data| && data[pos] >= 2 && n == 9
    ensures Take(data, Bits(pos, 0), BitsOf(0x100 + data[pos] as int, n)) == Took(Bits(pos + 1, 0))
  {
    hide Take, BitsOf, Half;
    var x := data[pos] as int + 0x100;
    FirstBit(data, Bits(pos, 0), BitsOf(x / 2, n - 1));
    Later(data, pos, n - 1);
    HalfOnce(x, 0);
    BitsOn(x, n);
    assert Half(x, 10 - n) == x / 2;
  }

  /** Behind the first, the bits come until the buffer is used up. */
  lemma {:induction false} Later(data: seq<Byte>, pos: nat, k: nat)
    requires pos < |data| && data[pos] >= 2 && k <= 8
    ensures var x := data[pos] as int + 0x100;
      Take(data, Bits(pos + 1, Half(x, 9 - k)), BitsOf(Half(x, 9 - k), k)) == Took(Bits(pos + 1, Half(x, 9)))
      && Half(x, 9) == 0
    decreases k
  {
    hide Half;
    var x := data[pos] as int + 0x100;
    HalfAt(x);
    if k > 0 {
      var h := Half(x, 9 - k);
      ByteGives(data[pos], 9 - k);
      HalfOnce(x, 9 - k);
      Later(data, pos, k - 1);
      NextBit(data, Bits(pos + 1, h), BitsOf(h / 2, k - 1));
      assert BitsOf(h, k) == [Bit(h % 2)] + BitsOf(h / 2, k - 1);
    }
  }

  lemma NextBit(data: seq<Byte>, s: Bits, rest: seq<Item>)
    requires s.pos <= |data| && s.bb % 0x80 != 0
    ensures Take(data, s, [Bit(s.bb % 2)] + rest) == Take(data, Bits(s.pos, s.bb / 2), rest)
  {
    assert ([Bit(s.bb % 2)] + rest)[1..] == rest;
  }

  lemma FirstBit(data: seq<Byte>, s: Bits, rest: seq<Item>)
    requires s.pos < |data| && s.bb % 0x80 == 0
    ensures var x := data[s.pos] as int + 0x100;
      Take(data, s, [Bit(x % 2)] + rest) == Take(data, Bits(s.pos + 1, x / 2), rest)
    ensures Take(data, s, []) == Took(s)
  {
    var x := data[s.pos] as int + 0x100;
    assert ([Bit(x % 2)] + rest)[1..] == rest;
  }

  // ---- numbers ----

  /** All digits but the first of n, each followed by a 0. */
  function Body(n: nat): seq<Item>
    requires n >= 1
  {
    if n == 1 then [] else Body(n / 2) + [Bit(n % 2), Bit(0)]
  }

  /** The digits of n but the first; a 1 behind the last, a 0 behind the others. */
  function Number2(n: nat): seq<Item>
    requires n >= 2
  {
    Body(n / 2) + [Bit(n % 2), Bit(1)]
  }

  lemma Wraps(x: int, y: int, a: int)
    requires y == I64(x)
    ensures I64(y * 2 + a) == I64(x * 2 + a)
  {
    var t := 0x1_0000_0000_0000_0000;
    var k := x / t;
    assert y == x - k * t || y == x - k * t - t;
    SameResidue(y * 2 + a, x * 2 + a, if y == x - k * t then k * 2 else k * 2 + 2);
  }

  lemma SameResidue(x: int, y: int, k: int)
    requires y == x + k * 0x1_0000_0000_0000_0000
    ensures I64(x) == I64(y)
  {
  }

  lemma TwoBits(data: seq<Byte>, s: Bits, a: int, b: int)
    requires s.pos <= |data|
    ensures Take(data, s, [Bit(a), Bit(b)]) ==
      var p := GetBit(data, s);
      if !p.Read? || p.v != a then Not else
      var q := GetBit(data, p.s);
      if !q.Read? || q.v != b then Not else Took(q.s)
  {
    hide GetBit;
    assert [Bit(a), Bit(b)][1..] == [Bit(b)] && [Bit(b)][1..] == [];
    var p := GetBit(data, s);
    if p.Read? && p.v == a {
      assert Take(data, s, [Bit(a), Bit(b)]) == Take(data, p.s, [Bit(b)]);
      var q := GetBit(data, p.s);
      if q.Read? && q.v == b {
        assert Take(data, p.s, [Bit(b)]) == Take(data, q.s, []);
        TakeNone(data, q.s);
      }
    }
  }

  /** Having read the digits of k, the loop goes on from k. */
  lemma {:induction false} BodyRead(data: seq<Byte>, s: Bits, k: nat)
    requires s.pos <= |data| && k >= 1 && Take(data, s, Body(k)).Took?
    ensures Number(data, s, 1) == Number(data, Take(data, s, Body(k)).s, I64(k))
    decreases k
  {
    hide GetBit, Take, I64;
    if k == 1 {
      TakeNone(data, s);
      One();
    } else {
      TakeBoth(data, s, Body(k / 2), [Bit(k % 2), Bit(0)]);
      BodyRead(data, s, k / 2);
      var t := Take(data, s, Body(k / 2)).s;
      TwoBits(data, t, k % 2, 0);
      Wraps(k / 2, I64(k / 2), k % 2);
    }
  }

  lemma TakeNone(data: seq<Byte>, s: Bits)
    requires s.pos <= |data|
    ensures Take(data, s, []) == Took(s)
  {
  }

  lemma One()
    ensures I64(1) == 1
  {
  }

  lemma NumberRead(data: seq<Byte>, s: Bits, n: nat)
    requires s.pos <= |data| && n >= 2 && Take(data, s, Number2(n)).Took?
    ensures Number(data, s, 1) == Read(I64(n), Take(data, s, Number2(n)).s)
  {
    hide GetBit, Take, I64, Body;
    TakeBoth(data, s, Body(n / 2), [Bit(n % 2), Bit(1)]);
    BodyRead(data, s, n / 2);
    var t := Take(data, s, Body(n / 2)).s;
    TwoBits(data, t, n % 2, 1);
    Wraps(n / 2, I64(n / 2), n % 2);
  }

  /** Whatever number is read was written, as a number of any size, and comes back modulo 2^64. */
  lemma {:induction false} NumberWritten(data: seq<Byte>, s: Bits, k: nat, t: Bits) returns (n: nat)
    requires s.pos <= |data| && k >= 1 && Take(data, s, Body(k)) == Took(t) && Number(data, t, I64(k)).Read?
    ensures n >= 2 && Take(data, s, Number2(n)).Took?
    ensures Number(data, t, I64(k)) == Read(I64(n), Take(data, s, Number2(n)).s)
    decreases |data| - t.pos, t.bb
  {
    hide GetBit, Take, I64, Body;
    var a := GetBit(data, t);
    var b := GetBit(data, a.s);
    BitIs(data, t);
    BitIs(data, a.s);
    n := 2 * k + a.v;
    Wraps(k, I64(k), a.v);
    TwoBits(data, t, a.v, b.v);
    TakeBoth(data, s, Body(k), [Bit(a.v), Bit(b.v)]);
    assert n / 2 == k && n % 2 == a.v;
    if b.v == 0 {
      BodyIs(n);
      n := NumberWritten(data, s, n, b.s);
    }
  }

  lemma BodyIs(n: nat)
    requires n >= 2
    ensures Body(n) == Body(n / 2) + [Bit(n % 2), Bit(0)]
  {
  }

  lemma BitIs(data: seq<Byte>, s: Bits)
    requires s.pos <= |data|
    ensures GetBit(data, s).Read? ==> (GetBit(data, s).v == 0 || GetBit(data, s).v == 1)
  {
  }

  /** A whole byte is the next in the data and leaves the bit buffer alone. */
  lemma RawYields(data: seq<Byte>, s: Bits, b: Byte)
    requires s.pos <= |data|
    ensures Take(data, s, [Raw(b)]) ==
      if s.pos < |data| && data[s.pos] == b then Took(Bits(s.pos + 1, s.bb)) else Not
  {
    assert [Raw(b)][1..] == [];
  }

  // ---- lengths ----

  /** 1 to 3 in two bits; more as two zeros and a number. */
  function LengthItems(m: nat): seq<Item>
    requires m >= 1
  {
    if m < 4 then [Bit(m / 2), Bit(m % 2)] else [Bit(0), Bit(0)] + Number2(m - 2)
  }

  lemma Plus(x: int, k: int)
    ensures I64(I64(x) + k) == I64(x + k)
  {
    var t := 0x1_0000_0000_0000_0000;
    var q := x / t;
    assert I64(x) == x - q * t || I64(x) == x - q * t - t;
    SameResidue(I64(x) + k, x + k, if I64(x) == x - q * t then q else q + 1);
  }

  lemma Times(x: int, k: int)
    ensures I64(I64(x) * k) == I64(x * k)
  {
    var t := 0x1_0000_0000_0000_0000;
    var q := x / t;
    assert I64(x) == x - q * t || I64(x) == x - q * t - t;
    var r := if I64(x) == x - q * t then q else q + 1;
    assert x == I64(x) + r * t;
    assert x * k == I64(x) * k + r * k * t by {
      assert (I64(x) + r * t) * k == I64(x) * k + r * t * k;
      assert r * t * k == r * k * t;
    }
    SameResidue(I64(x) * k, x * k, r * k);
  }

  lemma SmallIs(m: int)
    requires 0 <= m < 0x8000_0000_0000_0000
    ensures I64(m) == m
  {
  }

  lemma LengthRead(data: seq<Byte>, s: Bits, m: nat)
    requires s.pos <= |data| && m >= 1 && Take(data, s, LengthItems(m)).Took?
    ensures Length(data, s) == Read(I64(m), Take(data, s, LengthItems(m)).s)
  {
    hide GetBit, Take, I64, Number, Number2;
    if m < 4 {
      TwoBits(data, s, m / 2, m % 2);
      SmallIs(m);
    } else {
      TakeBoth(data, s, [Bit(0), Bit(0)], Number2(m - 2));
      TwoBits(data, s, 0, 0);
      NumberRead(data, Take(data, s, [Bit(0), Bit(0)]).s, m - 2);
      Plus(m - 2, 2);
    }
  }

  lemma LengthWritten(data: seq<Byte>, s: Bits) returns (m: nat)
    requires s.pos <= |data| && Length(data, s).Read?
    ensures m >= 1 && Take(data, s, LengthItems(m)).Took?
    ensures Length(data, s) == Read(I64(m), Take(data, s, LengthItems(m)).s)
  {
    hide GetBit, Take, I64, Number, Number2;
    var a := GetBit(data, s);
    var b := GetBit(data, a.s);
    BitIs(data, s);
    BitIs(data, a.s);
    TwoBits(data, s, a.v, b.v);
    m := a.v * 2 + b.v;
    if m == 0 {
      BodyOne(data, b.s);
      var n := NumberWritten(data, b.s, 1, b.s);
      m := n + 2;
      TakeBoth(data, s, [Bit(0), Bit(0)], Number2(n));
      Plus(n, 2);
    } else {
      SmallIs(m);
    }
  }

  lemma BodyOne(data: seq<Byte>, s: Bits)
    requires s.pos <= |data|
    ensures Take(data, s, Body(1)) == Took(s) && I64(1) == 1
  {
  }

  // ---- tokens ----

  /**
   What a writer can put down: a byte; a copy at the distance of the copy before; a copy at a distance of its own, in a
   high part and a low byte.  Each number is written as any number that comes back as it modulo 2^64.
   */
  datatype Code = Lit(b: Byte) | Again(n: nat, m: nat) | Fresh(n: nat, lo: Byte, m: nat)

  predicate IsEnd(n: int, lo: Byte) {
    var d := I64((n - 3) * 0x100 + lo);
    I64(n) != 2 && (d == -1 || d == 0xFFFF_FFFF)
  }

  predicate Valid(c: Code) {
    match c
    case Lit(_) => true
    case Again(n, m) => n >= 2 && m >= 1 && I64(n) == 2
    case Fresh(n, lo, m) => n >= 2 && m >= 1 && I64(n) != 2 && !IsEnd(n, lo)
  }

  function Written(c: Code): seq<Item>
    requires Valid(c)
  {
    match c
    case Lit(b) => [Bit(1), Raw(b)]
    case Again(n, m) => [Bit(0)] + Number2(n) + LengthItems(m)
    case Fresh(n, lo, m) => [Bit(0)] + Number2(n) + [Raw(lo)] + LengthItems(m)
  }

  /** A copy is one byte longer than its length number, and one more beyond distance 0xD00. */
  function Copies(off: int, m: nat): Token { Copy(off, I64(m + if off > 0xD00 then 2 else 1)) }

  /** The token of a code, given the distance of the copy before. */
  function Says(c: Code, last: int): Token {
    match c
    case Lit(b) => Literal(b)
    case Again(_, m) => Copies(last, m)
    case Fresh(n, lo, m) => Copies(I64((n - 3) * 0x100 + lo + 1), m)
  }

  /** The distance a later `Again` copies at: that of the last copy. */
  function Remembered(t: Token, last: int): int { if t.Copy? then t.off else last }

  lemma DistanceRead(data: seq<Byte>, s: Bits, last: int, c: Code)
    requires s.pos <= |data| && Valid(c) && !c.Lit?
    requires Take(data, s, if c.Again? then Number2(c.n) else Number2(c.n) + [Raw(c.lo)]).Took?
    ensures var t := Take(data, s, if c.Again? then Number2(c.n) else Number2(c.n) + [Raw(c.lo)]).s;
      var off := Says(c, last).off;
      Distance(data, s, last) == Next(Copy(off, 0), t, off)
  {
    hide Take, Number, Number2, I64;
    if c.Fresh? {
      TakeBoth(data, s, Number2(c.n), [Raw(c.lo)]);
      RawYields(data, Take(data, s, Number2(c.n)).s, c.lo);
      DistanceIs(c.n, c.lo);
    }
    NumberRead(data, s, c.n);
  }

  lemma DistanceIs(n: int, lo: Byte)
    ensures I64((I64(n) - 3) * 0x100 + lo) == I64((n - 3) * 0x100 + lo)
    ensures I64(I64((n - 3) * 0x100 + lo) + 1) == I64((n - 3) * 0x100 + lo + 1)
  {
    hide I64;
    Times(n, 0x100);
    Plus(I64(n) * 0x100, lo as int - 0x300);
    Plus(n * 0x100, lo as int - 0x300);
    Plus((n - 3) * 0x100 + lo as int, 1);
  }

  function DistanceItems(c: Code): seq<Item>
    requires Valid(c) && !c.Lit?
  {
    if c.Again? then Number2(c.n) else Number2(c.n) + [Raw(c.lo)]
  }

  lemma CopyRead(data: seq<Byte>, s: Bits, last: int, c: Code)
    requires s.pos <= |data| && Valid(c) && !c.Lit? && Take(data, s, DistanceItems(c) + LengthItems(c.m)).Took?
    ensures CopyAt(data, s, last) ==
      Next(Says(c, last), Take(data, s, DistanceItems(c) + LengthItems(c.m)).s, Says(c, last).off)
  {
    hide Take, Number2, LengthItems, I64, Distance, Length, IsEnd;
    TakeBoth(data, s, DistanceItems(c), LengthItems(c.m));
    DistanceRead(data, s, last, c);
    LengthRead(data, Take(data, s, DistanceItems(c)).s, c.m);
    Plus(c.m, 1);
    Plus(c.m + 1, 1);
  }

  lemma LitRead(data: seq<Byte>, s: Bits, last: int, b: Byte)
    requires s.pos <= |data| && Take(data, s, [Bit(1), Raw(b)]).Took?
    ensures NextToken(data, s, last) == Next(Literal(b), Take(data, s, [Bit(1), Raw(b)]).s, last)
  {
    hide Take, CopyAt, GetBit, GetByte;
    assert [Bit(1), Raw(b)] == [Bit(1)] + [Raw(b)];
    TakeBoth(data, s, [Bit(1)], [Raw(b)]);
    BitThen(data, s, 1);
    ByteThen(data, Take(data, s, [Bit(1)]).s, b);
  }

  /** Every token that is written is read, and the distance to remember is the one of the last copy. */
  lemma CodeRead(data: seq<Byte>, s: Bits, last: int, c: Code)
    requires s.pos <= |data| && Valid(c) && Take(data, s, Written(c)).Took?
    ensures NextToken(data, s, last) ==
      Next(Says(c, last), Take(data, s, Written(c)).s, Remembered(Says(c, last), last))
  {
    hide Take, Number2, LengthItems, I64, CopyAt, GetBit, IsEnd;
    if c.Lit? {
      LitRead(data, s, last, c.b);
    } else {
      var rest := DistanceItems(c) + LengthItems(c.m);
      assert Written(c) == [Bit(0)] + rest;
      TakeBoth(data, s, [Bit(0)], rest);
      BitThen(data, s, 0);
      CopyRead(data, Take(data, s, [Bit(0)]).s, last, c);
    }
  }

  lemma BitThen(data: seq<Byte>, s: Bits, v: int)
    requires s.pos <= |data|
    ensures Take(data, s, [Bit(v)]) ==
      if GetBit(data, s).Read? && GetBit(data, s).v == v then Took(GetBit(data, s).s) else Not
  {
    hide GetBit;
    assert [Bit(v)][1..] == [];
  }

  lemma ByteThen(data: seq<Byte>, s: Bits, b: Byte)
    requires s.pos <= |data|
    ensures Take(data, s, [Raw(b)]) ==
      if GetByte(data, s).Read? && GetByte(data, s).v == b then Took(GetByte(data, s).s) else Not
  {
    hide GetByte;
    assert [Raw(b)][1..] == [];
  }

  /** Every token that is read was written so. */
  lemma CodeWritten(data: seq<Byte>, s: Bits, last: int) returns (c: Code)
    requires s.pos <= |data| && NextToken(data, s, last).Next?
    ensures Valid(c) && Take(data, s, Written(c)).Took?
    ensures NextToken(data, s, last) ==
      Next(Says(c, last), Take(data, s, Written(c)).s, Remembered(Says(c, last), last))
  {
    hide Take, Number2, LengthItems, I64, Length, GetBit, GetByte, Number;
    var a := GetBit(data, s);
    BitIs(data, s);
    BitThen(data, s, a.v);
    if a.v == 1 {
      var b := GetByte(data, a.s);
      c := Lit(b.v);
      ByteThen(data, a.s, b.v);
      assert [Bit(1), Raw(c.b)] == [Bit(1)] + [Raw(c.b)];
      TakeBoth(data, s, [Bit(1)], [Raw(c.b)]);
    } else {
      BodyOne(data, a.s);
      var n := NumberWritten(data, a.s, 1, a.s);
      var r := Number(data, a.s, 1);
      var m := LengthWritten(data, Distance(data, a.s, last).s);
      if r.v == 2 {
        c := Again(n, m);
      } else {
        var b := GetByte(data, r.s);
        c := Fresh(n, b.v, m);
        DistanceIs(n, b.v);
        ByteThen(data, r.s, b.v);
        TakeBoth(data, a.s, Number2(n), [Raw(b.v)]);
      }
      var d := if c.Again? then Number2(c.n) else Number2(c.n) + [Raw(c.lo)];
      assert Written(c) == [Bit(0)] + (d + LengthItems(c.m));
      TakeBoth(data, s, [Bit(0)], d + LengthItems(c.m));
      TakeBoth(data, a.s, d, LengthItems(c.m));
      CodeRead(data, s, last, c);
    }
  }

  /** The end mark: a distance that comes out as -1 or 0xFFFFFFFF. */
  function EndItems(n: nat, lo: Byte): seq<Item>
    requires n >= 2
  {
    [Bit(0)] + Number2(n) + [Raw(lo)]
  }

  lemma EndExact(data: seq<Byte>, s: Bits, last: int)
    requires s.pos <= |data|
    ensures NextToken(data, s, last).EndMark? <==>
      exists n: nat, lo: Byte :: n >= 2 && IsEnd(n, lo) && Take(data, s, EndItems(n, lo)).Took?
  {
    hide NextToken, Take, EndItems, IsEnd;
    if NextToken(data, s, last).EndMark? {
      var n, lo := EndWritten(data, s, last);
      assert Take(data, s, EndItems(n, lo)).Took?;
    }
    if exists n: nat, lo: Byte :: n >= 2 && IsEnd(n, lo) && Take(data, s, EndItems(n, lo)).Took? {
      var n: nat, lo: Byte :| n >= 2 && IsEnd(n, lo) && Take(data, s, EndItems(n, lo)).Took?;
      EndRead(data, s, last, n, lo);
    }
  }

  lemma EndRead(data: seq<Byte>, s: Bits, last: int, n: nat, lo: Byte)
    requires s.pos <= |data| && n >= 2 && IsEnd(n, lo) && Take(data, s, EndItems(n, lo)).Took?
    ensures NextToken(data, s, last).EndMark?
  {
    hide Take, Number2, I64, Number, GetBit, GetByte;
    assert EndItems(n, lo) == [Bit(0)] + (Number2(n) + [Raw(lo)]);
    TakeBoth(data, s, [Bit(0)], Number2(n) + [Raw(lo)]);
    BitThen(data, s, 0);
    var t := Take(data, s, [Bit(0)]).s;
    TakeBoth(data, t, Number2(n), [Raw(lo)]);
    NumberRead(data, t, n);
    ByteThen(data, Take(data, t, Number2(n)).s, lo);
    DistanceIs(n, lo);
  }

  lemma EndWritten(data: seq<Byte>, s: Bits, last: int) returns (n: nat, lo: Byte)
    requires s.pos <= |data| && NextToken(data, s, last).EndMark?
    ensures n >= 2 && IsEnd(n, lo) && Take(data, s, EndItems(n, lo)).Took?
  {
    hide Take, Number2, I64, Length, GetBit, GetByte, Number;
    var a := GetBit(data, s);
    BitIs(data, s);
    BitThen(data, s, 0);
    BodyOne(data, a.s);
    n := NumberWritten(data, a.s, 1, a.s);
    var r := Number(data, a.s, 1);
    lo := GetByte(data, r.s).v;
    DistanceIs(n, lo);
    ByteThen(data, r.s, lo);
    TakeBoth(data, a.s, Number2(n), [Raw(lo)]);
    assert EndItems(n, lo) == [Bit(0)] + (Number2(n) + [Raw(lo)]);
    TakeBoth(data, s, [Bit(0)], Number2(n) + [Raw(lo)]);
  }

  // ---- the whole stream ----

  predicate AllValid(cs: seq<Code>) { forall i :: 0 <= i < |cs| ==> Valid(cs[i]) }

  function AllWritten(cs: seq<Code>): seq<Item>
    requires AllValid(cs)
  {
    if cs == [] then [] else Written(cs[0]) + AllWritten(cs[1..])
  }

  function AllSay(cs: seq<Code>, last: int): seq<Token> {
    if cs == [] then [] else
    var t := Says(cs[0], last);
    [t] + AllSay(cs[1..], Remembered(t, last))
  }

  /** Tokens written, with an end mark behind them, are the tokens read. */
  lemma {:induction false} StreamRead(data: seq<Byte>, s: Bits, last: int, cs: seq<Code>, n: nat, lo: Byte)
    requires s.pos <= |data| && AllValid(cs) && n >= 2 && IsEnd(n, lo)
    requires Take(data, s, AllWritten(cs) + EndItems(n, lo)).Took?
    ensures Tokens(data, s, last) == AllSay(cs, last)
    decreases |cs|
  {
    hide Take, Written, EndItems, NextToken, Says, Valid, IsEnd;
    if cs == [] {
      assert AllWritten(cs) + EndItems(n, lo) == EndItems(n, lo);
      EndRead(data, s, last, n, lo);
    } else {
      var rest := AllWritten(cs[1..]) + EndItems(n, lo);
      assert AllWritten(cs) + EndItems(n, lo) == Written(cs[0]) + rest;
      TakeBoth(data, s, Written(cs[0]), rest);
      CodeRead(data, s, last, cs[0]);
      StreamRead(data, Take(data, s, Written(cs[0])).s, Remembered(Says(cs[0], last), last), cs[1..], n, lo);
    }
  }

  /** Tokens read were written, every one of them, whatever the data. */
  lemma {:induction false} StreamWritten(data: seq<Byte>, s: Bits, last: int) returns (cs: seq<Code>)
    requires s.pos <= |data|
    ensures AllValid(cs) && Take(data, s, AllWritten(cs)).Took? && Tokens(data, s, last) == AllSay(cs, last)
    decreases |data| - s.pos, s.bb
  {
    hide Take, Written, NextToken, Says, Valid;
    cs := [];
    TakeNone(data, s);
    if NextToken(data, s, last).Next? {
      var c := CodeWritten(data, s, last);
      var nx := NextToken(data, s, last);
      var rest := StreamWritten(data, nx.s, nx.lastOff);
      cs := [c] + rest;
      assert cs[1..] == rest;
      TakeBoth(data, s, Written(c), AllWritten(rest));
    }
  }

  /** The distance of the last copy among the tokens; before any, the one at the start. */
  function LastDistance(toks: seq<Token>, start: int): int {
    if toks == [] then start
    else if toks[|toks| - 1].Copy? then toks[|toks| - 1].off else LastDistance(toks[..|toks| - 1], start)
  }

  /** What a code says depends on what was said before it only by the distance of the last copy. */
  lemma {:induction false} AgainCopiesLast(cs: seq<Code>, last: int, i: nat)
    requires i < |cs|
    ensures |AllSay(cs, last)| == |cs| && AllSay(cs, last)[i] == Says(cs[i], LastDistance(AllSay(cs, last)[..i], last))
    decreases |cs|
  {
    hide Says;
    var t := Says(cs[0], last);
    var rest := AllSay(cs[1..], Remembered(t, last));
    if i > 0 {
      AgainCopiesLast(cs[1..], Remembered(t, last), i - 1);
      assert AllSay(cs, last)[..i] == [t] + rest[..i - 1];
      LastBehind(t, rest[..i - 1], last);
    }
    SameCount(cs, last);
  }

  lemma {:induction false} SameCount(cs: seq<Code>, last: int)
    ensures |AllSay(cs, last)| == |cs|
    decreases |cs|
  {
    if cs != [] {
      SameCount(cs[1..], Remembered(Says(cs[0], last), last));
    }
  }

  lemma {:induction false} LastBehind(t: Token, toks: seq<Token>, last: int)
    ensures LastDistance([t] + toks, last) == LastDistance(toks, Remembered(t, last))
    decreases |toks|
  {
    if toks == [] {
      assert ([t] + toks)[..0] == [] && [t] + toks == [t];
    } else {
      var n := |toks| - 1;
      assert ([t] + toks)[..n + 1] == [t] + toks[..n];
      LastBehind(t, toks[..n], last);
    }
  }

  // ---- a writer of tokens ----

  /** Tokens a compressor makes: distances and lengths of 32 bits, no length below the least that can be written. */
  predicate Writable(t: Token) {
    t.Copy? ==> 1 <= t.off < 0xFFFF_FFFF && (if t.off > 0xD00 then 3 else 2) <= t.len < 0x1_0000_0000
  }

  /** The distance is written again only when it is not that of the copy before. */
  function CodeOf(t: Token, last: int): Code
    requires Writable(t)
  {
    match t
    case Literal(b) => Lit(b)
    case Copy(off, len) =>
      var m := if off > 0xD00 then len - 2 else len - 1;
      if off == last then Again(2, m) else Fresh((off - 1) / 0x100 + 3, (off - 1) % 0x100, m)
  }

  lemma CodeOfSays(t: Token, last: int)
    requires Writable(t)
    ensures Valid(CodeOf(t, last)) && Says(CodeOf(t, last), last) == t
  {
    hide I64;
    if t.Copy? {
      var n, lo, m := (t.off - 1) / 0x100 + 3, (t.off - 1) % 0x100, if t.off > 0xD00 then t.len - 2 else t.len - 1;
      assert (n - 3) * 0x100 + lo == t.off - 1;
      SmallIs(n);
      SmallIs(2);
      SmallIs(t.off - 1);
      SmallIs(t.off);
      SmallIs(t.len);
    }
  }

  function CodesOf(ts: seq<Token>, last: int): (cs: seq<Code>)
    requires forall i :: 0 <= i < |ts| ==> Writable(ts[i])
    ensures AllValid(cs)
  {
    if ts == [] then [] else
    CodeOfSays(ts[0], last);
    [CodeOf(ts[0], last)] + CodesOf(ts[1..], Remembered(ts[0], last))
  }

  lemma {:induction false} CodesSay(ts: seq<Token>, last: int)
    requires forall i :: 0 <= i < |ts| ==> Writable(ts[i])
    ensures AllSay(CodesOf(ts, last), last) == ts
    decreases |ts|
  {
    hide CodeOf, Says, Writable;
    if ts != [] {
      var cs := CodesOf(ts, last);
      CodeOfSays(ts[0], last);
      CodesSay(ts[1..], Remembered(ts[0], last));
      assert cs[0] == CodeOf(ts[0], last) && cs[1..] == CodesOf(ts[1..], Remembered(ts[0], last));
    }
  }

  /** The end mark of a writer: the distance 0xFFFFFFFF. */
  lemma EndMarkIs()
    ensures IsEnd(0x100_0002, 0xFF)
  {
  }

  /** Whatever a compressor writes token by token, and ends, is read back as those tokens. */
  lemma WriterRead(data: seq<Byte>, ts: seq<Token>)
    requires forall i :: 0 <= i < |ts| ==> Writable(ts[i])
    requires Take(data, Bits(0, 0), AllWritten(CodesOf(ts, 1)) + EndItems(0x100_0002, 0xFF)).Took?
    ensures Tokens(data, Bits(0, 0), 1) == ts
  {
    hide Take, AllWritten, CodesOf, EndItems, Tokens, AllSay, Writable, IsEnd;
    EndMarkIs();
    CodesSay(ts, 1);
    StreamRead(data, Bits(0, 0), 1, CodesOf(ts, 1), 0x100_0002, 0xFF);
  }

  // ---- decompression undoes compression ----

  lemma CopyIs(dst: seq<Byte>, off: int, len: int, out: seq<Byte>)
    requires |dst| <= |out| && dst == out[..|dst|] && 0 < off <= |dst|
    requires var end := |dst| + if len > 0 then len else 0;
      end <= |out| && forall j :: |dst| <= j < end ==> out[j] == out[j - off]
    ensures var d := Copied(dst, off, len); |d| <= |out| && d == out[..|d|]
  {
    hide Copied;
    var d := Copied(dst, off, len);
    CopiedIs(dst, off, len);
    assert d[..|dst|] == out[..|dst|];
    forall j | |dst| <= j < |d|
      ensures out[j] == out[j - off]
    {
    }
    SameCopy(d, out, |dst|, |d|, off, |d|);
    assert d[..|d|] == d;
  }

  /** From what is there already, the written tokens complete the text they stand for. */
  lemma {:induction false} RunCompletes(data: seq<Byte>, s: Bits, last: int, cs: seq<Code>, n: nat, lo: Byte,
    dst: seq<Byte>, out: seq<Byte>, dstLen: nat)
    requires s.pos <= |data| && AllValid(cs) && n >= 2 && IsEnd(n, lo)
    requires Take(data, s, AllWritten(cs) + EndItems(n, lo)).Took?
    requires |dst| <= |out| <= dstLen && dstLen > 0 && dst == out[..|dst|] && Explains(AllSay(cs, last), out, |dst|)
    ensures Run(data, s, last, dst, dstLen) == Out(out)
    decreases |cs|
  {
    hide Take, Written, EndItems, NextToken, Valid, IsEnd, Copied, Says;
    if cs == [] {
      assert AllWritten(cs) + EndItems(n, lo) == EndItems(n, lo);
      EndRead(data, s, last, n, lo);
      assert out[..|out|] == out;
    } else {
      var rest := AllWritten(cs[1..]) + EndItems(n, lo);
      assert AllWritten(cs) + EndItems(n, lo) == Written(cs[0]) + rest;
      TakeBoth(data, s, Written(cs[0]), rest);
      CodeRead(data, s, last, cs[0]);
      var t := Says(cs[0], last);
      var s' := Take(data, s, Written(cs[0])).s;
      var toks := AllSay(cs, last);
      assert toks[0] == t && toks[1..] == AllSay(cs[1..], Remembered(t, last));
      if t.Literal? {
        assert dst + [t.b] == out[..|dst| + 1];
        RunCompletes(data, s', last, cs[1..], n, lo, dst + [t.b], out, dstLen);
      } else {
        CopyIs(dst, t.off, t.len, out);
        var d := Copied(dst, t.off, t.len);
        if |d| >= dstLen {
          assert d[..dstLen] == out;
        } else {
          RunCompletes(data, s', t.off, cs[1..], n, lo, d, out, dstLen);
        }
      }
    }
  }

  /** A text, taken apart into tokens in whatever way, written and ended, is decompressed to the text. */
  lemma WriterRoundTrip(data: seq<Byte>, ts: seq<Token>, text: seq<Byte>, wanted: int)
    requires forall i :: 0 <= i < |ts| ==> Writable(ts[i])
    requires Take(data, Bits(0, 0), AllWritten(CodesOf(ts, 1)) + EndItems(0x100_0002, 0xFF)).Took?
    requires Explains(ts, text, 0) && |text| <= wanted && wanted > 0
    ensures Decompress(data, wanted) == Out(text)
  {
    hide Take, AllWritten, CodesOf, EndItems, AllSay, Writable, IsEnd, Explains, Run;
    EndMarkIs();
    CodesSay(ts, 1);
    RunCompletes(data, Bits(0, 0), 1, CodesOf(ts, 1), 0x100_0002, 0xFF, [], text, wanted);
  }

  function Lits(bs: seq<Byte>): (cs: seq<Code>)
    ensures |cs| == |bs| && AllValid(cs)
  {
    seq(|bs|, i requires 0 <= i < |bs| => Lit(bs[i]))
  }

  /** Literals alone may run sixteen bytes past what is wanted, and are then cut; one more is an overflow. */
  lemma {:induction false} LiteralsExact(data: seq<Byte>, s: Bits, last: int, bs: seq<Byte>, n: nat, lo: Byte,
    dst: seq<Byte>, dstLen: nat)
    requires s.pos <= |data| && n >= 2 && IsEnd(n, lo) && dstLen > 0 && |dst| <= dstLen + 16
    requires Take(data, s, AllWritten(Lits(bs)) + EndItems(n, lo)).Took?
    ensures Run(data, s, last, dst, dstLen) ==
      if |dst| + |bs| > dstLen + 16 then Overflow
      else Out(if |dst| + |bs| > dstLen then (dst + bs)[..dstLen] else dst + bs)
    decreases |bs|
  {
    hide Take, Written, EndItems, NextToken, IsEnd, Copied;
    var cs := Lits(bs);
    if bs == [] {
      assert AllWritten(cs) + EndItems(n, lo) == EndItems(n, lo);
      EndRead(data, s, last, n, lo);
      assert dst + bs == dst;
    } else {
      assert cs[0] == Lit(bs[0]) && cs[1..] == Lits(bs[1..]);
      var rest := AllWritten(cs[1..]) + EndItems(n, lo);
      assert AllWritten(cs) + EndItems(n, lo) == Written(cs[0]) + rest;
      TakeBoth(data, s, Written(cs[0]), rest);
      CodeRead(data, s, last, cs[0]);
      if |dst| + 1 <= dstLen + 16 {
        LiteralsExact(data, Take(data, s, Written(cs[0])).s, last, bs[1..], n, lo, dst + [bs[0]], dstLen);
        assert dst + [bs[0]] + bs[1..] == dst + bs;
      }
    }
  }

  /** A copy from before the start, or from 0 bytes back, is refused with its distance. */
  lemma BadCopy(data: seq<Byte>, s: Bits, last: int, c: Code, dst: seq<Byte>, dstLen: nat)
    requires s.pos <= |data| && Valid(c) && !c.Lit? && Take(data, s, Written(c)).Took?
    requires !(0 < Says(c, last).off <= |dst|)
    ensures Run(data, s, last, dst, dstLen) == BadOffset(Says(c, last).off)
  {
    hide Take, Written, NextToken, Valid, I64;
    CodeRead(data, s, last, c);
  }

  /** Without a length asked for, four times the input is the limit. */
  lemma Unlimited(data: seq<Byte>, wanted: int)
    requires wanted <= 0
    ensures Decompress(data, wanted) == Run(data, Bits(0, 0), 1, [], |data| + |data| + |data| + |data|)
  {
    hide Run;
  }
}
