/** ScriptGuard on small numbers: which way it rotates, how far it shifts, what it takes from where. */
module GuardSamples {
  import opened Word32
  import opened ScriptGuard

  // ---- the exclusive or, byte by byte ----

  lemma OneBit(a: nat, b: nat, x: nat, y: nat, n: nat)
    requires a < 2 && b < 2
    ensures XorBits(a + 2 * x, b + 2 * y, n + 1) == (if a == b then 0 else 1) + 2 * XorBits(x, y, n)
  {
    assert (a + 2 * x) % 2 == a && (b + 2 * y) % 2 == b && (a + 2 * x) / 2 == x && (b + 2 * y) / 2 == y;
  }

  lemma TwoBits(a: nat, b: nat, x: nat, y: nat, n: nat)
    requires a < 4 && b < 4
    ensures XorBits(a + 4 * x, b + 4 * y, n + 2) == XorBits(a, b, 2) + 4 * XorBits(x, y, n)
  {
    hide XorBits;
    var a0, a1, b0, b1 := a % 2, a / 2, b % 2, b / 2;
    assert a == a0 + 2 * a1 && b == b0 + 2 * b1;
    assert a + 4 * x == a0 + 2 * (a1 + 2 * x) && b + 4 * y == b0 + 2 * (b1 + 2 * y);
    OneBit(a0, b0, a1 + 2 * x, b1 + 2 * y, n + 1);
    OneBit(a1, b1, x, y, n);
    OneBit(a0, b0, a1, b1, 1);
    OneBit(a1, b1, 0, 0, 0);
    NoBits(a, b);
    NoBits(0, 0);
  }

  lemma NoBits(x: nat, y: nat)
    ensures XorBits(x, y, 0) == 0
  {
  }

  lemma FourBits(a: nat, b: nat, x: nat, y: nat, n: nat)
    requires a < 16 && b < 16
    ensures XorBits(a + 16 * x, b + 16 * y, n + 4) == XorBits(a, b, 4) + 16 * XorBits(x, y, n)
  {
    hide XorBits;
    var a0, a1, b0, b1 := a % 4, a / 4, b % 4, b / 4;
    assert a == a0 + 4 * a1 && b == b0 + 4 * b1;
    assert a + 16 * x == a0 + 4 * (a1 + 4 * x) && b + 16 * y == b0 + 4 * (b1 + 4 * y);
    TwoBits(a0, b0, a1 + 4 * x, b1 + 4 * y, n + 2);
    TwoBits(a1, b1, x, y, n);
    TwoBits(a0, b0, a1, b1, 2);
    TwoBits(a1, b1, 0, 0, 0);
    NoBits(0, 0);
  }

  lemma EightBits(a: Byte, b: Byte, x: nat, y: nat, n: nat)
    ensures XorBits(a + 0x100 * x, b + 0x100 * y, n + 8) == XorByte(a, b) + 0x100 * XorBits(x, y, n)
  {
    hide XorBits;
    var a0, a1, b0, b1: nat := a % 16, a / 16, b % 16, b / 16;
    assert a == a0 + 16 * a1 && b == b0 + 16 * b1;
    assert a + 0x100 * x == a0 + 16 * (a1 + 16 * x) && b + 0x100 * y == b0 + 16 * (b1 + 16 * y);
    FourBits(a0, b0, a1 + 16 * x, b1 + 16 * y, n + 4);
    FourBits(a1, b1, x, y, n);
    FourBits(a0, b0, a1, b1, 4);
    FourBits(a1, b1, 0, 0, 0);
    NoBits(0, 0);
  }

  function XorByte(a: Byte, b: Byte): Byte { ByteRange(a, b); XorBits(a, b, 8) }

  lemma ByteRange(a: Byte, b: Byte)
    ensures XorBits(a, b, 8) < 0x100
  {
    hide XorBits;
    assert Pow2(8) == 0x100;
    var r := XorBits(a, b, 8);
  }

  /** Byte k of a word. */
  function ByteAt(x: Word, k: nat): Byte
    requires k < 4
  {
    match k case 0 => x % 0x100 case 1 => x / 0x100 % 0x100 case 2 => x / 0x1_0000 % 0x100 case _ => x / 0x100_0000
  }

  lemma XorIs(x: Word, y: Word)
    ensures Xor(x, y) == XorByte(ByteAt(x, 0), ByteAt(y, 0)) + 0x100 * XorByte(ByteAt(x, 1), ByteAt(y, 1))
      + 0x1_0000 * XorByte(ByteAt(x, 2), ByteAt(y, 2)) + 0x100_0000 * XorByte(ByteAt(x, 3), ByteAt(y, 3))
  {
    hide XorBits, XorByte;
    var x0, x1, x2, x3 := ByteAt(x, 0) as int, ByteAt(x, 1) as int, ByteAt(x, 2) as int, ByteAt(x, 3) as int;
    var y0, y1, y2, y3 := ByteAt(y, 0) as int, ByteAt(y, 1) as int, ByteAt(y, 2) as int, ByteAt(y, 3) as int;
    Split(x);
    Split(y);
    EightBits(x0, y0, x1 + 0x100 * (x2 + 0x100 * x3), y1 + 0x100 * (y2 + 0x100 * y3), 24);
    EightBits(x1, y1, x2 + 0x100 * x3, y2 + 0x100 * y3, 16);
    EightBits(x2, y2, x3, y3, 8);
    EightBits(x3, y3, 0, 0, 0);
    NoBits(0, 0);
  }

  lemma Split(x: Word)
    ensures x == ByteAt(x, 0) + 0x100 * (ByteAt(x, 1) + 0x100 * (ByteAt(x, 2) as int + 0x100 * ByteAt(x, 3)))
    ensures ByteAt(x, 0) == x % 0x100
  {
    var q: Word := x / 0x100;
    var r: Word := q / 0x100;
    assert r == x / 0x1_0000 && r / 0x100 == x / 0x100_0000;
  }

  lemma ByteZero(a: Byte)
    ensures XorByte(a, 0) == a
  {
    assert Pow2(8) == 0x100;
    NoneSet(a, 8);
  }

  lemma {:induction false} NoneSet(x: nat, n: nat)
    requires x < Pow2(n)
    ensures XorBits(x, 0, n) == x
  {
    if n > 0 {
      NoneSet(x / 2, n - 1);
    }
  }

  /** Where the second word is a byte, the others stay. */
  lemma XorSmall(x: Word, b: Byte)
    ensures Xor(x, b) == x - x % 0x100 + XorByte(x % 0x100, b)
  {
    hide XorByte, ByteAt;
    XorIs(x, b);
    ByteZero(ByteAt(x, 1));
    ByteZero(ByteAt(x, 2));
    ByteZero(ByteAt(x, 3));
    Split(x);
    OneByte(b);
  }

  lemma OneByte(b: Byte)
    ensures ByteAt(b, 0) == b && ByteAt(b, 1) == 0 && ByteAt(b, 2) == 0 && ByteAt(b, 3) == 0
  {
  }

  lemma RotatesBy(x: Word, n: nat, p: nat, q: nat)
    requires p == Pow2(n % 32) && q == Pow2(32 - n % 32)
    ensures Ror(x, n) == x / p + (x * q) % TOP && Rol(x, n) == (x * p) % TOP + x / q
  {
    hide Pow2;
  }

  lemma Powers()
    ensures Pow2(1) == 2 && Pow2(5) == 0x20 && Pow2(13) == 0x2000 && Pow2(15) == 0x8000 && Pow2(17) == 0x2_0000
    ensures Pow2(27) == 0x800_0000 && Pow2(31) == 0x8000_0000
  {
    assert Pow2(8) == 0x100;
    assert Pow2(16) == 0x1_0000;
    assert Pow2(24) == 0x100_0000;
  }

  // ---- the generator ----

  lemma ShiftsBy(edx: Word, a: Word, x: Word, y: Word)
    requires a == (edx * 0x2000) % TOP && x == Xor(a, edx) && y == Xor(x, x / 0x2_0000)
    ensures Xorshift(edx) == Xor((y * 0x20) % TOP, y)
  {
    hide Xor, Pow2;
    Powers();
  }

  lemma XorshiftXors()
    ensures Xor(0x2_0000, 0x10) == 0x2_0010 && Xor(0x2_0010, 1) == 0x2_0011 && Xor(0x40_0220, 0x2_0011) == 0x42_0231
  {
    hide Xor, XorByte;
    FirstByte();
    SecondByte();
    ThirdByte();
    LastByte();
    XorSmall(0x2_0000, 0x10);
    XorSmall(0x2_0010, 1);
    XorIs(0x40_0220, 0x2_0011);
    ByteZero(2);
    ByteZero(0);
  }

  lemma FirstByte()
    ensures XorByte(0, 0x10) == 0x10
  {
  }

  lemma SecondByte()
    ensures XorByte(0x10, 1) == 0x11
  {
  }

  lemma ThirdByte()
    ensures XorByte(0x20, 0x11) == 0x31
  {
  }

  lemma LastByte()
    ensures XorByte(0x40, 2) == 0x42
  {
  }

  /** Shifts by 13, 17 and 5: the one bit of 16 goes everywhere it should. */
  lemma XorshiftSample()
    ensures Xorshift(0x10) == 0x42_0231
  {
    hide Xor, Xorshift;
    XorshiftXors();
    ShiftsBy(0x10, 0x2_0000, 0x2_0010, 0x2_0011);
  }

  // ---- the mixing ----

  /** The table that holds its own indices. */
  function Identity(): (t: Words)
    ensures |t| == 256
  {
    seq(256, i requires 0 <= i < 256 => i)
  }

  lemma EntryIs(x: Word)
    ensures Entry(Identity(), x) == x % 0x100
  {
  }

  lemma MixBytes()
    ensures XorByte(5, 3) == 6
  {
  }

  /** e less r8 is 5; with the entry of edx 6; turned right by the entry of r9, 3; less the entry of r10, 1. */
  lemma MixSample(r8: Word)
    ensures MixStep(Identity(), Ctl(0x103, 0x201, 0x402, r8), Add(5, r8)) == 1
  {
    hide Xor, Ror, XorByte, Entry, Identity, Pow2;
    EntryIs(0x103);
    EntryIs(0x201);
    EntryIs(0x402);
    AddBack(5, r8);
    MixBytes();
    XorSmall(5, 3);
    Powers();
    RotatesBy(6, 1, 2, 0x8000_0000);
  }

  /** A word takes four turns, the registers moving on from each to the next. */
  lemma MixFour(t: Words, c: Ctl, e: Word)
    requires |t| == 256
    ensures Mix(t, c, e, 4) == MixStep(t, CtlAt(c, 3),
      MixStep(t, CtlAt(c, 2), MixStep(t, CtlAt(c, 1), MixStep(t, c, e))))
  {
    hide MixStep, NextCtl;
    CtlOn(c, 0);
    CtlOn(c, 1);
    CtlOn(c, 2);
    var e1 := MixStep(t, c, e);
    var e2 := MixStep(t, CtlAt(c, 1), e1);
    var e3 := MixStep(t, CtlAt(c, 2), e2);
    MixOn(t, c, e, 3);
    MixOn(t, CtlAt(c, 1), e1, 2);
    MixOn(t, CtlAt(c, 2), e2, 1);
    MixOn(t, CtlAt(c, 3), e3, 0);
    MixOn(t, NextCtl(CtlAt(c, 3)), MixStep(t, CtlAt(c, 3), e3), 0);
  }

  lemma MixOn(t: Words, c: Ctl, e: Word, n: nat)
    requires |t| == 256
    ensures Mix(t, c, e, n + 1) == Mix(t, NextCtl(c), MixStep(t, c, e), n) && Mix(t, c, e, 0) == e
  {
    hide MixStep, NextCtl;
  }

  // ---- the other passes ----

  lemma OffsetBytes()
    ensures XorByte(0x31, 1) == 0x30
  {
  }

  lemma TurnBytes()
    ensures XorByte(0x0F, 2) == 0x0D
  {
  }

  lemma {:induction false} XorSwaps(x: nat, y: nat, n: nat)
    ensures XorBits(x, y, n) == XorBits(y, x, n)
  {
    if n > 0 {
      XorSwaps(x / 2, y / 2, n - 1);
    }
  }

  /** What passes B and C take off, from the entries 1 and 2. */
  lemma OffsetsSample(k: Keys)
    requires k.r15 == 1 && k.p58 == 2
    ensures Ecx(Identity(), k) == 0x1C614AF9 && R10(Identity(), k) == 0xA5C961B3
  {
    hide XorByte, XorBits, Ror, Rol, Entry, Identity, Pow2;
    EntryIs(1);
    EntryIs(2);
    OffsetBytes();
    TurnBytes();
    XorSwaps(1, 0xA57C8E31, 32);
    XorSwaps(2, 0x9D2E4B0F, 32);
    XorSmall(0xA57C8E31, 1);
    XorSmall(0x9D2E4B0F, 2);
    Powers();
    RotatesBy(0xA57C8E30, 15, 0x8000, 0x2_0000);
    RotatesBy(0x9D2E4B0D, 5, 0x20, 0x800_0000);
  }

  /** Passes A, B and C on two words. */
  lemma PassesSample()
    ensures PassC(PassB(PassA([1, 2]), 1000003), 77) == [0xFFFBFFB4, 0x70BD80]
  {
    hide Ror, Rol, Pow2;
    Powers();
    RotatesBy(2, 15, 0x8000, 0x2_0000);
    assert PassA([1, 2]) == [0xFFFC0001, 2];
    RotatesBy(0xFFFC0001, 5, 0x20, 0x800_0000);
    assert PassB([0xFFFC0001, 2], 1000003) == [0xFFFC0001, 0x70BD80];
  }

  // ---- the classic variant ----

  lemma ScheduleOn(key: Bytes, n: nat, w: Word)
    requires 4 * n + 4 <= |key| && w == Le32(key[4 * n..4 * n + 4])
    ensures Schedule(key, 0) == [0x6F, 0x71, 0x75, 0x77]
    ensures var st := Schedule(key, n);
      Schedule(key, n + 1) == st[n % 4 := Add(Mul(st[n % 4], 0x83), w)]
  {
    hide Le32;
  }

  /** The schedule starts from the letters o, q, u, w; the fifth word of the key comes to the first again. */
  lemma ScheduleStart(key: Bytes, w: Words)
    requires |key| >= 20 && |w| == 5 && forall i :: 0 <= i < 5 ==> w[i] == Le32(key[4 * i..4 * i + 4])
    ensures Schedule(key, 4) == [Add(Mul('o' as int, 131), w[0]), Add(Mul('q' as int, 131), w[1]),
                                 Add(Mul('u' as int, 131), w[2]), Add(Mul('w' as int, 131), w[3])]
    ensures Schedule(key, 5) == Schedule(key, 4)[0 := Add(Mul(Schedule(key, 4)[0], 131), w[4])]
  {
    hide Schedule, Le32, Add, Mul;
    ScheduleOn(key, 0, w[0]);
    ScheduleOn(key, 1, w[1]);
    ScheduleOn(key, 2, w[2]);
    ScheduleOn(key, 3, w[3]);
    ScheduleOn(key, 4, w[4]);
  }

  /** Turned left, less the key, twice. */
  lemma OpenSample()
    ensures Open1(0x4000_0001, 3) == 0xFFFF_FFFB
  {
    hide Rol, Ror, Pow2;
    Powers();
    RotatesBy(0x4000_0001, 1, 2, 0x8000_0000);
    RotatesBy(0x7FFF_FFFF, 1, 2, 0x8000_0000);
  }

  /** Each word of the keystream goes back into the state it came from. */
  lemma StreamOn(x: Stream, i: nat)
    requires |x.st| == 4
    ensures var k := (x.st[i % 4] * 131 + x.ctr) % TOP;
      NextKey(x, i) == k && Advance(x, i) == Stream(x.st[i % 4 := k], (x.ctr + 1) % TOP)
  {
    var p: int := x.st[i % 4] as int * 131;
    var q := p / TOP;
    assert p == q * TOP + p % TOP;
    ModShift(p % TOP + x.ctr, q);
  }
}
