/**
 The ScriptGuard decryptors (internal/scriptguard/sg1.go, sg2.go) on 32-bit words: every stage as a function with an
 explicit inverse.  `ScriptGuardImpl` proves the in-place loops against them.
 */
module ScriptGuard {
  import opened Word32

  type Words = seq<Word>
  type Bytes = seq<Byte>

  /** A table entry; the index is the low byte. */
  function Entry(table: Words, x: Word): Word
    requires |table| == 256
  {
    table[x % 0x100]
  }

  // ---- the mixing loop over one word ----

  /** The four registers that drive the mixing: none of them depends on the word. */
  datatype Ctl = Ctl(edx: Word, r9: Word, r10: Word, r8: Word)

  function NextCtl(c: Ctl): Ctl { Ctl(Sub(c.edx, 0x2B), Sub(c.r9, 0x3B), Sub(c.r10, 0x25), Add(c.r8, 0x61C88647)) }

  function MixStep(table: Words, c: Ctl, e: Word): Word
    requires |table| == 256
  {
    Sub(Ror(Xor(Sub(e, c.r8), Entry(table, c.edx)), Entry(table, c.r9) % 0x100), Entry(table, c.r10))
  }

  function UnmixStep(table: Words, c: Ctl, e: Word): Word
    requires |table| == 256
  {
    Add(Xor(Rol(Add(e, Entry(table, c.r10)), Entry(table, c.r9) % 0x100), Entry(table, c.edx)), c.r8)
  }

  lemma StepBijective(table: Words, c: Ctl, e: Word)
    requires |table| == 256
    ensures UnmixStep(table, c, MixStep(table, c, e)) == e && MixStep(table, c, UnmixStep(table, c, e)) == e
  {
    hide Sub, Add, Xor, Ror, Rol, Entry;
    var k, n, m, r := Entry(table, c.edx), Entry(table, c.r9) % 0x100, Entry(table, c.r10), c.r8;
    AddBack(Ror(Xor(Sub(e, r), k), n), m);
    RorRol(Xor(Sub(e, r), k), n);
    XorBack(Sub(e, r), k);
    AddBack(e, r);
    AddBack(Xor(Rol(Add(e, m), n), k), r);
    XorBack(Rol(Add(e, m), n), k);
    RorRol(Add(e, m), n);
    AddBack(e, m);
  }

  function Mix(table: Words, c: Ctl, e: Word, n: nat): Word
    requires |table| == 256
    decreases n
  {
    if n == 0 then e else Mix(table, NextCtl(c), MixStep(table, c, e), n - 1)
  }

  function Unmix(table: Words, c: Ctl, e: Word, n: nat): Word
    requires |table| == 256
    decreases n
  {
    if n == 0 then e else UnmixStep(table, c, Unmix(table, NextCtl(c), e, n - 1))
  }

  lemma {:induction false} MixBijective(table: Words, c: Ctl, e: Word, n: nat)
    requires |table| == 256
    ensures Unmix(table, c, Mix(table, c, e, n), n) == e && Mix(table, c, Unmix(table, c, e, n), n) == e
    decreases n
  {
    hide MixStep, UnmixStep, NextCtl;
    if n > 0 {
      MixBijective(table, NextCtl(c), MixStep(table, c, e), n - 1);
      StepBijective(table, c, e);
      MixBijective(table, NextCtl(c), e, n - 1);
      StepBijective(table, c, Unmix(table, NextCtl(c), e, n - 1));
    }
  }

  function CtlAt(c: Ctl, k: nat): Ctl
    decreases k
  {
    if k == 0 then c else CtlAt(NextCtl(c), k - 1)
  }

  /** The loop leaves when edx has come down to r11 again: after four rounds and no sooner, wherever r11 is. */
  lemma {:induction false} FourRounds(r11: Word, r9: Word, r10: Word, r8: Word, k: nat)
    requires 0 < k <= 4
    ensures CtlAt(Ctl(Add(r11, 0xAC), r9, r10, r8), k).edx == r11 <==> k == 4
  {
    CtlEdx(Ctl(Add(r11, 0xAC), r9, r10, r8), k);
    Around(r11, 0x2B * k);
  }

  lemma {:induction false} CtlEdx(c: Ctl, k: nat)
    ensures CtlAt(c, k).edx == Sub(c.edx, 0x2B * k)
    decreases k
  {
    if k > 0 {
      CtlEdx(NextCtl(c), k - 1);
      SubSum(c.edx, 0x2B, 0x2B * (k - 1));
    }
  }

  lemma SubSum(x: Word, a: Word, b: nat)
    ensures Sub(Sub(x, a), b) == Sub(x, a + b)
  {
    var t := if x - a < 0 then 1 else 0;
    assert Sub(x, a) == x - a + TOP * t;
    ModShift(x - a - b, t);
  }

  lemma ModShift(x: int, t: int)
    ensures (x + TOP * t) % TOP == x % TOP
  {
  }

  lemma Around(r: Word, d: nat)
    requires d <= 0xAC
    ensures Sub(Add(r, 0xAC), d) == r <==> d == 0xAC
  {
  }

  lemma {:induction false} CtlOn(c: Ctl, k: nat)
    ensures CtlAt(c, k + 1) == NextCtl(CtlAt(c, k))
    decreases k
  {
    hide NextCtl;
    if k > 0 {
      CtlOn(NextCtl(c), k - 1);
    }
  }

  // ---- the passes over the buffer ----

  datatype Keys = Keys(r15: Word, p58: Word, p60: Word, p68: Word, p70: Word)

  function PassA(s: Words): (r: Words)
    ensures |r| == |s|
  {
    seq(|s|, i requires 0 <= i < |s| => if i < |s| - 1 then Sub(s[i], Ror(s[i + 1], 15)) else s[i])
  }

  /** The words from k on, before pass A. */
  function UnpassA(t: Words, k: nat): (r: Words)
    requires k <= |t|
    ensures |r| == |t| - k
    decreases |t| - k
  {
    if k == |t| then [] else
    var rest := UnpassA(t, k + 1);
    [if k < |t| - 1 then Add(t[k], Ror(rest[0], 15)) else t[k]] + rest
  }

  lemma {:induction false} UnpassPassA(s: Words, k: nat)
    requires k <= |s|
    ensures UnpassA(PassA(s), k) == s[k..]
    decreases |s| - k
  {
    hide Ror;
    if k < |s| {
      UnpassPassA(s, k + 1);
      if k < |s| - 1 {
        AddBack(s[k], Ror(s[k + 1], 15));
      }
    }
  }

  lemma {:induction false} UnpassTail(t: Words, k: nat, i: nat)
    requires k <= i <= |t|
    ensures UnpassA(t, k)[i - k..] == UnpassA(t, i)
    decreases i - k
  {
    hide Ror;
    if k < i {
      UnpassTail(t, k + 1, i);
    }
  }

  lemma {:induction false} PassUnpassA(t: Words)
    ensures PassA(UnpassA(t, 0)) == t
  {
    hide Ror;
    var s := UnpassA(t, 0);
    forall i | 0 <= i < |t|
      ensures PassA(s)[i] == t[i]
    {
      UnpassTail(t, 0, i);
      assert s[i] == UnpassA(t, i)[0];
      if i < |t| - 1 {
        UnpassTail(t, 0, i + 1);
        assert s[i + 1] == UnpassA(t, i + 1)[0];
        AddBack(t[i], Ror(s[i + 1], 15));
      }
    }
  }

  /** What pass B takes off word i, given the word before it. */
  function Off(i: int, n: int, before: Word, ecx: Word): Word { Add(if i == n - 1 then ecx else 0, Rol(before, 5)) }

  function PassB(s: Words, ecx: Word): (r: Words)
    ensures |r| == |s|
  {
    seq(|s|, i requires 0 <= i < |s| => if i == 0 then s[0] else Sub(s[i], Off(i, |s|, s[i - 1], ecx)))
  }

  lemma PassBAt(s: Words, ecx: Word, i: nat)
    requires i < |s|
    ensures PassB(s, ecx)[i] == if i == 0 then s[0] else Sub(s[i], Off(i, |s|, s[i - 1], ecx))
  {
    hide Off, Sub, Rol;
  }

  /** The first k words, before pass B. */
  function UnpassB(t: Words, ecx: Word, k: nat): (r: Words)
    requires k <= |t|
    ensures |r| == k
  {
    if k == 0 then [] else
    var before := UnpassB(t, ecx, k - 1);
    before + [if k == 1 then t[0] else Add(t[k - 1], Off(k - 1, |t|, before[k - 2], ecx))]
  }

  lemma {:induction false} UnpassPassB(s: Words, ecx: Word, k: nat)
    requires k <= |s|
    ensures UnpassB(PassB(s, ecx), ecx, k) == s[..k]
  {
    hide Off, Add, Sub, PassB;
    if k > 0 {
      UnpassPassB(s, ecx, k - 1);
      PassBAt(s, ecx, k - 1);
      if k > 1 {
        assert s[..k - 1][k - 2] == s[k - 2];
        AddBack(s[k - 1], Off(k - 1, |s|, s[k - 2], ecx));
      }
      assert s[..k] == s[..k - 1] + [s[k - 1]];
    }
  }

  lemma {:induction false} UnpassHead(t: Words, ecx: Word, i: nat, k: nat)
    requires i <= k <= |t|
    ensures UnpassB(t, ecx, k)[..i] == UnpassB(t, ecx, i)
    decreases k
  {
    hide Off;
    if i < k {
      UnpassHead(t, ecx, i, k - 1);
      assert UnpassB(t, ecx, k)[..k - 1] == UnpassB(t, ecx, k - 1);
      assert UnpassB(t, ecx, k)[..i] == UnpassB(t, ecx, k)[..k - 1][..i];
    }
  }

  lemma {:induction false} PassUnpassB(t: Words, ecx: Word)
    ensures PassB(UnpassB(t, ecx, |t|), ecx) == t
  {
    hide Off;
    var s := UnpassB(t, ecx, |t|);
    forall i | 0 <= i < |t|
      ensures PassB(s, ecx)[i] == t[i]
    {
      UnpassHead(t, ecx, i + 1, |t|);
      assert s[i] == s[..i + 1][i];
      if i > 0 {
        UnpassHead(t, ecx, i, |t|);
        assert s[i - 1] == s[..i][i - 1];
        AddBack(t[i], Off(i, |t|, s[i - 1], ecx));
      }
    }
  }

  /** Where pass D stands: the registers it steps from word to word. */
  datatype Seed = Seed(r11: Word, ebp: Word, edi: Word, ebx: Word)

  function NextSeed(d: Seed): Seed { Seed(Add(d.r11, 7), Add(d.ebp, 3), Sub(d.edi, 0x61C88647), Add(d.ebx, 1)) }

  function SeedAt(d: Seed, k: nat): Seed { if k == 0 then d else NextSeed(SeedAt(d, k - 1)) }

  function SeedOf(k: Keys): Seed { Seed(k.p68, k.p70, 0xDAA66D2B, 0) }

  function CtlOf(d: Seed, r13: Word): Ctl { Ctl(Add(d.r11, 0xAC), d.ebp, Add(r13, d.ebx), d.edi) }

  function CtlFor(k: Keys, i: nat): Ctl { CtlOf(SeedAt(SeedOf(k), i), Add(k.p60, 0x6F)) }

  function PassD(table: Words, k: Keys, s: Words): (r: Words)
    requires |table| == 256
    ensures |r| == |s|
  {
    seq(|s|, i requires 0 <= i < |s| => Mix(table, CtlFor(k, i), s[i], 4))
  }

  function UnpassD(table: Words, k: Keys, t: Words): (r: Words)
    requires |table| == 256
    ensures |r| == |t|
  {
    seq(|t|, i requires 0 <= i < |t| => Unmix(table, CtlFor(k, i), t[i], 4))
  }

  lemma {:induction false} PassDBijective(table: Words, k: Keys, s: Words)
    requires |table| == 256
    ensures UnpassD(table, k, PassD(table, k, s)) == s && PassD(table, k, UnpassD(table, k, s)) == s
  {
    hide Mix, Unmix, CtlFor;
    forall i | 0 <= i < |s|
      ensures UnpassD(table, k, PassD(table, k, s))[i] == s[i] && PassD(table, k, UnpassD(table, k, s))[i] == s[i]
    {
      MixBijective(table, CtlFor(k, i), s[i], 4);
    }
  }

  function Ecx(table: Words, k: Keys): Word
    requires |table| == 256
  {
    Ror(Xor(Entry(table, k.r15), 0xA57C8E31), 15)
  }

  function R10(table: Words, k: Keys): Word
    requires |table| == 256
  {
    Rol(Xor(Entry(table, k.p58), 0x9D2E4B0F), 5)
  }

  function PassC(s: Words, r10: Word): (r: Words)
    requires s != []
    ensures |r| == |s|
  {
    s[0 := Sub(s[0], r10)]
  }

  function UnpassC(t: Words, r10: Word): (r: Words)
    requires t != []
    ensures |r| == |t|
  {
    t[0 := Add(t[0], r10)]
  }

  /** decryptRound: a buffer of one word gets no table-driven mixing. */
  function Round(table: Words, k: Keys, s: Words): (r: Words)
    requires |table| == 256
    ensures |r| == |s|
  {
    if s == [] then s
    else if |s| == 1 then [Sub(Sub(s[0], Ecx(table, k)), R10(table, k))]
    else PassD(table, k, PassC(PassB(PassA(s), Ecx(table, k)), R10(table, k)))
  }

  function Unround(table: Words, k: Keys, t: Words): (r: Words)
    requires |table| == 256
    ensures |r| == |t|
  {
    if t == [] then t
    else if |t| == 1 then [Add(Add(t[0], R10(table, k)), Ecx(table, k))]
    else
      var u := UnpassC(UnpassD(table, k, t), R10(table, k));
      UnpassA(UnpassB(u, Ecx(table, k), |u|), 0)
  }

  /** One round is a bijection on buffers of every length. */
  lemma {:induction false} RoundBijective(table: Words, k: Keys, s: Words)
    requires |table| == 256
    ensures Unround(table, k, Round(table, k, s)) == s && Round(table, k, Unround(table, k, s)) == s
  {
    hide Ecx, R10, PassA, PassB, PassD, UnpassA, UnpassB, UnpassD;
    var ecx, r10 := Ecx(table, k), R10(table, k);
    if |s| == 1 {
      AddBack(Sub(s[0], ecx), r10);
      AddBack(s[0], ecx);
      AddBack(Add(s[0], r10), ecx);
      AddBack(s[0], r10);
    } else if s != [] {
      var a := PassA(s);
      var b := PassB(a, ecx);
      PassDBijective(table, k, PassC(b, r10));
      AddBack(b[0], r10);
      assert UnpassC(PassC(b, r10), r10) == b;
      UnpassPassB(a, ecx, |a|);
      assert a[..|a|] == a && s[0..] == s;
      UnpassPassA(s, 0);
      PassDBijective(table, k, s);
      var d := UnpassD(table, k, s);
      AddBack(d[0], r10);
      assert PassC(UnpassC(d, r10), r10) == d;
      var u := UnpassC(d, r10);
      PassUnpassB(u, ecx);
      PassUnpassA(UnpassB(u, ecx, |u|));
    }
  }

  // ---- the table, the prelayer, the bytes ----

  function Xorshift(edx: Word): Word {
    var x := Xor(Shl(edx, 13), edx);
    var y := Xor(x, Shr(x, 17));
    Xor(Shl(y, 5), y)
  }

  function XorshiftAt(i: nat): Word { if i == 0 then 0x3F8A2C19 else Xorshift(XorshiftAt(i - 1)) }

  function Table(): (t: Words)
    ensures |t| == 256
  {
    seq(256, i requires 0 <= i < 256 => XorshiftAt(i + 1))
  }

  function NextLcg(lcg: Word): Word { Add(Mul(lcg, 0x41C64E6D), 0x3039) }

  /** The prelayer: each word with the next state of the generator; applied twice it is undone. */
  function Mask(lcg: Word, s: Words): (r: Words)
    ensures |r| == |s|
    decreases |s|
  {
    if s == [] then [] else [Xor(s[0], NextLcg(lcg))] + Mask(NextLcg(lcg), s[1..])
  }

  lemma {:induction false} MaskTwice(lcg: Word, s: Words)
    ensures Mask(lcg, Mask(lcg, s)) == s
    decreases |s|
  {
    hide NextLcg;
    if s != [] {
      MaskTwice(NextLcg(lcg), s[1..]);
      assert Mask(lcg, s)[1..] == Mask(NextLcg(lcg), s[1..]);
      XorBack(s[0], NextLcg(lcg));
      assert [s[0]] + s[1..] == s;
    }
  }

  function ToBytes(s: Words): (r: Bytes)
    ensures |r| == 4 * |s| && |r| % 4 == 0
  {
    if s == [] then [] else Bytes4(s[0]) + ToBytes(s[1..])
  }

  function ToWords(b: Bytes): (r: Words)
    requires |b| % 4 == 0
    ensures 4 * |r| == |b|
  {
    if b == [] then [] else [Le32(b[..4])] + ToWords(b[4..])
  }

  lemma {:induction false} WordsBytes(s: Words)
    ensures ToWords(ToBytes(s)) == s
  {
    hide Bytes4, Le32;
    if s != [] {
      WordsBytes(s[1..]);
      assert ToBytes(s)[..4] == Bytes4(s[0]) && ToBytes(s)[4..] == ToBytes(s[1..]);
      Bytes4Le(s[0]);
      assert [s[0]] + s[1..] == s;
    }
  }

  lemma {:induction false} BytesWords(b: Bytes)
    requires |b| % 4 == 0
    ensures ToBytes(ToWords(b)) == b
  {
    hide Bytes4, Le32;
    if b != [] {
      BytesWords(b[4..]);
      LeBytes4(b[..4]);
      assert ToWords(b)[1..] == ToWords(b[4..]);
      assert b[..4] + b[4..] == b;
    }
  }

  // ---- SG2 ----

  const FIRST := Keys(0x64, 0x3D, 0x7F, 0xBB, 0x145)
  const SECOND := Keys(0x21, 0x0, 0x0, 0x30, 0xC2)

  function Shellcode(s: Words): (r: Words)
    ensures |r| == |s|
  {
    Round(Table(), SECOND, Round(Table(), FIRST, s))
  }

  function Unshellcode(t: Words): (r: Words)
    ensures |r| == |t|
  {
    Unround(Table(), FIRST, Unround(Table(), SECOND, t))
  }

  lemma ShellcodeBijective(s: Words)
    ensures Unshellcode(Shellcode(s)) == s && Shellcode(Unshellcode(s)) == s
  {
    hide Round, Unround, Table;
    RoundBijective(Table(), FIRST, s);
    RoundBijective(Table(), SECOND, Round(Table(), FIRST, s));
    RoundBijective(Table(), SECOND, s);
    RoundBijective(Table(), FIRST, Unround(Table(), SECOND, s));
  }

  function Lcg(iv: Word): Word { Xor(0x5A3B521D, iv) }

  /** DecryptSG2Dwords: plain bytes and file IV; nothing for fewer than two words. */
  function Decrypt2(raw: Words): (r: (Bytes, Word))
    ensures |r.0| % 4 == 0
  {
    if |raw| < 2 then ([], 0) else (ToBytes(Shellcode(Mask(Lcg(raw[0]), raw[1..]))), raw[0])
  }

  function Encrypt2(plain: Bytes, iv: Word): Words
    requires |plain| % 4 == 0
  {
    [iv] + Mask(Lcg(iv), Unshellcode(ToWords(plain)))
  }

  /** Decryption loses nothing: from two words on, the plain bytes and the IV give the input back. */
  lemma Decrypt2Injective(raw: Words)
    requires |raw| >= 2
    ensures |Decrypt2(raw).0| == 4 * (|raw| - 1) && Encrypt2(Decrypt2(raw).0, Decrypt2(raw).1) == raw
  {
    hide Mask, Shellcode, Unshellcode, ToBytes, ToWords;
    var mid := Mask(Lcg(raw[0]), raw[1..]);
    WordsBytes(Shellcode(mid));
    ShellcodeBijective(mid);
    MaskTwice(Lcg(raw[0]), raw[1..]);
    assert [raw[0]] + raw[1..] == raw;
  }

  /** And it reaches every plain text of whole words. */
  lemma Decrypt2Onto(plain: Bytes, iv: Word)
    requires |plain| % 4 == 0 && plain != []
    ensures |Encrypt2(plain, iv)| >= 2 && Decrypt2(Encrypt2(plain, iv)) == (plain, iv)
  {
    hide Mask, Shellcode, Unshellcode, ToBytes, ToWords;
    var raw := Encrypt2(plain, iv);
    var mid := Unshellcode(ToWords(plain));
    assert raw[1..] == Mask(Lcg(iv), mid);
    MaskTwice(Lcg(iv), mid);
    ShellcodeBijective(ToWords(plain));
    BytesWords(plain);
  }

  // ---- SG1 ----

  /** The key schedule: word i of the key goes into state i mod 4. */
  function Schedule(key: Bytes, n: nat): (st: Words)
    requires 4 * n <= |key|
    ensures |st| == 4
  {
    if n == 0 then [0x6F, 0x71, 0x75, 0x77] else
    var st := Schedule(key, n - 1);
    var idx := (n - 1) % 4;
    st[idx := Add(Mul(st[idx], 0x83), Le32(key[4 * (n - 1)..4 * n]))]
  }

  /** The keystream state before word i; ctr is uint32(i). */
  datatype Stream = Stream(st: Words, ctr: Word)

  function NextKey(x: Stream, i: nat): Word
    requires |x.st| == 4
  {
    Add(Mul(x.st[i % 4], 0x83), x.ctr)
  }

  function Advance(x: Stream, i: nat): (y: Stream)
    requires |x.st| == 4
    ensures |y.st| == 4
  {
    Stream(x.st[i % 4 := NextKey(x, i)], Add(x.ctr, 1))
  }

  function Open1(enc: Word, k: Word): Word { Sub(Rol(Sub(Rol(enc, 1), k), 1), k) }

  function Close1(p: Word, k: Word): Word { Ror(Add(Ror(Add(p, k), 1), k), 1) }

  lemma OpenClose(x: Word, k: Word)
    ensures Close1(Open1(x, k), k) == x && Open1(Close1(x, k), k) == x
  {
    hide Sub, Add, Ror, Rol;
    AddBack(Rol(Sub(Rol(x, 1), k), 1), k);
    RorRol(Sub(Rol(x, 1), k), 1);
    AddBack(Rol(x, 1), k);
    RorRol(x, 1);
    RorRol(Add(Ror(Add(x, k), 1), k), 1);
    AddBack(Ror(Add(x, k), 1), k);
    RorRol(Add(x, k), 1);
    AddBack(x, k);
  }

  function OpenFrom(x: Stream, i: nat, s: Words): (r: Words)
    requires |x.st| == 4
    ensures |r| == |s|
    decreases |s|
  {
    if s == [] then [] else [Open1(s[0], NextKey(x, i))] + OpenFrom(Advance(x, i), i + 1, s[1..])
  }

  function CloseFrom(x: Stream, i: nat, s: Words): (r: Words)
    requires |x.st| == 4
    ensures |r| == |s|
    decreases |s|
  {
    if s == [] then [] else [Close1(s[0], NextKey(x, i))] + CloseFrom(Advance(x, i), i + 1, s[1..])
  }

  lemma {:induction false} OpenCloseFrom(x: Stream, i: nat, s: Words)
    requires |x.st| == 4
    ensures CloseFrom(x, i, OpenFrom(x, i, s)) == s && OpenFrom(x, i, CloseFrom(x, i, s)) == s
    decreases |s|
  {
    hide Open1, Close1, NextKey, Advance;
    if s != [] {
      OpenCloseFrom(Advance(x, i), i + 1, s[1..]);
      assert OpenFrom(x, i, s)[1..] == OpenFrom(Advance(x, i), i + 1, s[1..]);
      assert CloseFrom(x, i, s)[1..] == CloseFrom(Advance(x, i), i + 1, s[1..]);
      OpenClose(s[0], NextKey(x, i));
      assert [s[0]] + s[1..] == s;
    }
  }

  datatype Plain = Plain(bytes: Bytes) | KeyTooSmall

  function Usable(key: Bytes): (n: nat)
    ensures n <= |key|
  {
    |key| / 10000 * 10000
  }

  function Start1(key: Bytes): (x: Stream)
    ensures |x.st| == 4
  {
    Stream(Schedule(key, Usable(key) / 4), 0)
  }

  function Decrypt1(key: Bytes, s: Words): Plain {
    if Usable(key) < 4 then KeyTooSmall else Plain(ToBytes(OpenFrom(Start1(key), 0, s)))
  }

  function Encrypt1(key: Bytes, plain: Bytes): Words
    requires |plain| % 4 == 0
  {
    CloseFrom(Start1(key), 0, ToWords(plain))
  }

  /**
   With a key of at least 10000 bytes decryption is a bijection between word lists and whole-word texts; with less it
   fails.
   */
  lemma Decrypt1Bijective(key: Bytes, s: Words, plain: Bytes)
    requires |plain| % 4 == 0
    ensures Decrypt1(key, s).KeyTooSmall? <==> |key| < 10000
    ensures |key| >= 10000 ==> |Decrypt1(key, s).bytes| % 4 == 0 && Encrypt1(key, Decrypt1(key, s).bytes) == s
    ensures |key| >= 10000 ==> Decrypt1(key, Encrypt1(key, plain)) == Plain(plain)
  {
    hide ToBytes, ToWords, OpenFrom, CloseFrom, Schedule;
    var x := Start1(key);
    OpenCloseFrom(x, 0, s);
    WordsBytes(OpenFrom(x, 0, s));
    OpenCloseFrom(x, 0, ToWords(plain));
    BytesWords(plain);
  }
}

/** The loops of sg1.go and sg2.go, in place on arrays. */
module ScriptGuardImpl {
  import opened Word32
  import opened ScriptGuard

  method BuildXorshiftTable() returns (table: array<Word>)
    ensures fresh(table) && table[..] == Table()
  {
    hide Xorshift;
    table := new Word[256];
    var edx: Word := 0x3F8A2C19;
    for i := 0 to 256
      invariant edx == XorshiftAt(i)
      invariant forall j :: 0 <= j < i ==> table[j] == XorshiftAt(j + 1)
    {
      edx := NextEdx(edx);
      table[i] := edx;
    }
  }

  method NextEdx(edx: Word) returns (r: Word)
    ensures r == Xorshift(edx)
  {
    var eax := edx;
    eax := Xor(Shl(eax, 13), edx);
    var t := Shr(eax, 17);
    eax := Xor(eax, t);
    r := Xor(Shl(eax, 5), eax);
  }

  /** The inner loop of pass D: it stops by comparing edx with r11, and does four rounds. */
  method MixWord(table: array<Word>, e: Word, r11: Word, ebp: Word, r10: Word, edi: Word) returns (eax: Word)
    requires table.Length == 256
    ensures eax == Mix(table[..], Ctl(Add(r11, 0xAC), ebp, r10, edi), e, 4)
  {
    hide MixStep, Mix;
    eax := e;
    var edx, r9, r10i, r8 := Add(r11, 0xAC), ebp, r10, edi;
    ghost var c := Ctl(edx, r9, r10i, r8);
    ghost var n := 0;
    while true
      invariant n < 4 && CtlAt(c, n) == Ctl(edx, r9, r10i, r8)
      invariant Mix(table[..], c, e, 4) == Mix(table[..], CtlAt(c, n), eax, 4 - n)
      decreases 4 - n
    {
      MixOn(table[..], CtlAt(c, n), eax, 4 - n);
      CtlOn(c, n);
      FourRounds(r11, ebp, r10, edi, n + 1);
      ghost var before := eax;
      StepParts(table[..], CtlAt(c, n), before);
      var cl := edx % 0x100;
      eax := Sub(eax, r8);
      edx := Sub(edx, 0x2B);
      r8 := Add(r8, 0x61C88647);
      eax := Xor(eax, table[cl]);
      cl := r9 % 0x100;
      r9 := Sub(r9, 0x3B);
      eax := Ror(eax, table[cl] % 0x100);
      cl := r10i % 0x100;
      r10i := Sub(r10i, 0x25);
      eax := Sub(eax, table[cl]);
      n := n + 1;
      if edx == r11 {
        MixDone(table[..], CtlAt(c, n), eax);
        break;
      }
    }
  }

  lemma StepParts(table: Words, c: Ctl, e: Word)
    requires |table| == 256
    ensures MixStep(table, c, e) == Sub(Ror(Xor(Sub(e, c.r8), Entry(table, c.edx)), Entry(table, c.r9) % 0x100),
      Entry(table, c.r10))
  {

  }

  lemma MixOn(table: Words, c: Ctl, e: Word, n: nat)
    requires |table| == 256 && n > 0
    ensures Mix(table, c, e, n) == Mix(table, NextCtl(c), MixStep(table, c, e), n - 1)
  {
    hide MixStep, NextCtl;
  }

  lemma MixDone(table: Words, c: Ctl, e: Word)
    requires |table| == 256
    ensures Mix(table, c, e, 0) == e
  {
  }

  lemma SubTwice(x: Word, a: Word, b: Word)
    ensures Sub(Sub(x, a), b) == Sub(x, Add(a, b)) && Sub(x, b) == Sub(x, Add(0, b))
  {
    SubSum(x, a, b);
    ModShift(x - a - b, if a + b >= TOP then 1 else 0);
  }

  method RunA(buf: array<Word>)
    requires buf.Length >= 2
    modifies buf
    ensures buf[..] == PassA(old(buf[..]))
  {
    hide Ror;
    ghost var s := buf[..];
    var n := buf.Length;
    for i := 0 to n - 1
      invariant forall j :: 0 <= j < i ==> buf[j] == PassA(s)[j]
      invariant forall j :: i <= j < n ==> buf[j] == s[j]
    {
      buf[i] := Sub(buf[i], Ror(buf[i + 1], 15));
    }
  }

  method RunB(buf: array<Word>, ecx: Word)
    requires buf.Length >= 2
    modifies buf
    ensures buf[..] == PassB(old(buf[..]), ecx)
  {
    hide Rol, Add, Sub, PassB;
    ghost var s := buf[..];
    var n := buf.Length;
    PassBAt(s, ecx, 0);
    var eax := Sub(buf[n - 1], ecx);
    buf[n - 1] := eax;
    var ecxI := n - 2;
    while true
      invariant 0 <= ecxI <= n - 2
      invariant eax == if ecxI == n - 2 then Sub(s[n - 1], ecx) else s[ecxI + 1]
      invariant forall j :: 0 <= j <= ecxI ==> buf[j] == s[j]
      invariant forall j :: ecxI + 1 < j < n ==> buf[j] == PassB(s, ecx)[j]
      decreases ecxI
    {
      var rolv := Rol(buf[ecxI], 5);
      SubTwice(s[ecxI + 1], ecx, rolv);
      PassBAt(s, ecx, ecxI + 1);
      eax := Sub(eax, rolv);
      buf[ecxI + 1] := eax;
      assert buf[ecxI + 1] == PassB(s, ecx)[ecxI + 1];
      if ecxI == 0 {
        break;
      }
      eax := buf[ecxI];
      ecxI := ecxI - 1;
    }
  }

  method RunD(buf: array<Word>, table: array<Word>, k: Keys)
    requires table.Length == 256 && buf != table
    modifies buf
    ensures buf[..] == PassD(table[..], k, old(buf[..]))
  {
    hide Mix;
    ghost var s := buf[..];
    var r11, ebp, edi, ebx32: Word := k.p68, k.p70, 0xDAA66D2B, 0;
    var r13 := Add(k.p60, 0x6F);
    var ebx := 0;
    while ebx < buf.Length
      invariant 0 <= ebx <= buf.Length && SeedAt(SeedOf(k), ebx) == Seed(r11, ebp, edi, ebx32)
      invariant table[..] == old(table[..])
      invariant forall j :: 0 <= j < ebx ==> buf[j] == PassD(table[..], k, s)[j]
      invariant forall j :: ebx <= j < buf.Length ==> buf[j] == s[j]
    {
      buf[ebx] := MixWord(table, buf[ebx], r11, ebp, Add(r13, ebx32), edi);
      ebx, ebx32 := ebx + 1, Add(ebx32, 1);
      ebp := Add(ebp, 3);
      r11 := Add(r11, 7);
      edi := Sub(edi, 0x61C88647);
    }
  }

  method DecryptRound(buf: array<Word>, table: array<Word>, k: Keys)
    requires table.Length == 256 && buf != table
    modifies buf
    ensures buf[..] == Round(table[..], k, old(buf[..]))
  {
    hide PassA, PassB, PassD, Ror, Rol;
    ghost var s, t := buf[..], table[..];
    var n := buf.Length;
    if n == 0 {
      return;
    }
    var ecx := Xor(Entry(table[..], k.r15), 0xA57C8E31);
    var r10 := Entry(table[..], k.p58);
    if n <= 1 {
      buf[0] := Sub(buf[0], Ror(ecx, 15));
      buf[0] := Sub(buf[0], Rol(Xor(r10, 0x9D2E4B0F), 5));
      assert buf[..] == [buf[0]];
      return;
    }
    RunA(buf);
    ecx := Ror(ecx, 15);
    r10 := Xor(r10, 0x9D2E4B0F);
    RunB(buf, ecx);
    var eax := buf[0];
    r10 := Rol(r10, 5);
    buf[0] := Sub(eax, r10);
    assert buf[..] == PassC(PassB(PassA(s), ecx), r10);
    assert table[..] == t;
    RunD(buf, table, k);
  }

  method ShellcodeDecrypt(dwords: Words) returns (buf: array<Word>)
    ensures fresh(buf) && buf[..] == Shellcode(dwords)
  {
    hide Round, Table;
    buf := new Word[|dwords|](i requires 0 <= i < |dwords| => dwords[i]);
    assert buf[..] == dwords;
    var table := BuildXorshiftTable();
    DecryptRound(buf, table, FIRST);
    DecryptRound(buf, table, SECOND);
  }

  method LCGUnmask(dwords: Words) returns (fileIV: Word, payload: Words)
    ensures if dwords == [] then fileIV == 0 && payload == []
      else
        fileIV == dwords[0] && payload == Mask(Lcg(dwords[0]), dwords[1..])
  {
    hide NextLcg;
    if |dwords| == 0 {
      return 0, [];
    }
    fileIV, payload := dwords[0], [];
    var lcg := Xor(0x5A3B521D, fileIV);
    assert dwords[1..] == dwords[0 + 1..];
    for i := 1 to |dwords|
      invariant Mask(Lcg(dwords[0]), dwords[1..]) == payload + Mask(lcg, dwords[i..])
    {
      ghost var rest := dwords[i..];
      assert rest[1..] == dwords[i + 1..];
      ghost var next := NextLcg(lcg);
      lcg := Generate(lcg);
      assert payload + ([Xor(dwords[i], next)] + Mask(next, rest[1..])) == payload + [Xor(dwords[i], next)]
        + Mask(next, rest[1..]);
      payload := payload + [Xor(dwords[i], lcg)];
    }
    assert dwords[|dwords|..] == [];
  }

  method Generate(lcg: Word) returns (r: Word)
    ensures r == NextLcg(lcg)
  {
    r := Add(Mul(lcg, 0x41C64E6D), 0x3039);
  }

  method DwordsToBytes(dwords: Words) returns (out: Bytes)
    ensures out == ToBytes(dwords)
  {
    hide Bytes4;
    out := [];
    assert dwords[0..] == dwords;
    for i := 0 to |dwords|
      invariant ToBytes(dwords) == out + ToBytes(dwords[i..])
    {
      ghost var rest := dwords[i..];
      assert rest[1..] == dwords[i + 1..];
      assert out + (Bytes4(dwords[i]) + ToBytes(rest[1..])) == out + Bytes4(dwords[i]) + ToBytes(rest[1..]);
      out := out + Bytes4(dwords[i]);
    }
    assert dwords[|dwords|..] == [];
  }

  method DecryptSG2Dwords(raw: Words) returns (plain: Bytes, fileIV: Word)
    ensures (plain, fileIV) == Decrypt2(raw)
  {
    hide Mask, Shellcode, ToBytes;
    if |raw| < 2 {
      return [], 0;
    }
    var iv, mid := LCGUnmask(raw);
    var dec := ShellcodeDecrypt(mid);
    plain := DwordsToBytes(dec[..]);
    fileIV := iv;
  }

  method KeySchedule(key: Bytes, nDwords: nat) returns (state: array<Word>)
    requires 4 * nDwords <= |key|
    ensures fresh(state) && state.Length == 4 && state[..] == Schedule(key, nDwords)
  {
    hide Le32, Add, Mul;
    state := new Word[] [0x6F, 0x71, 0x75, 0x77];
    for i := 0 to nDwords
      invariant state[..] == Schedule(key, i)
    {
      var fd := Le32(key[4 * i..4 * i + 4]);
      var idx := i % 4;
      state[idx] := Add(Mul(state[idx], 0x83), fd);
    }
  }

  method DecryptSG1(key: Bytes, dwords: Words) returns (r: Plain)
    ensures r == Decrypt1(key, dwords)
  {
    hide Open1, Add, Mul, ToBytes, Schedule;
    var nBytes := |key| / 10000 * 10000;
    if nBytes < 4 {
      return KeyTooSmall;
    }
    var nDwords := nBytes / 4;
    var st := KeySchedule(key, nDwords);
    var out: Words := [];
    var ctr: Word := 0;
    assert dwords[0..] == dwords;
    for i := 0 to |dwords|
      invariant OpenFrom(Start1(key), 0, dwords) == out + OpenFrom(Stream(st[..], ctr), i, dwords[i..])
    {
      ghost var rest := dwords[i..];
      ghost var x := Stream(st[..], ctr);
      assert rest[1..] == dwords[i + 1..];
      var idx := i % 4;
      var k := Add(Mul(st[idx], 0x83), ctr);
      st[idx] := k;
      ctr := Add(ctr, 1);
      assert Stream(st[..], ctr) == Advance(x, i);
      var p := Open(dwords[i], k);
      assert out + ([p] + OpenFrom(Advance(x, i), i + 1, rest[1..])) == out + [p]
        + OpenFrom(Advance(x, i), i + 1, rest[1..]);
      out := out + [p];
    }
    assert dwords[|dwords|..] == [];
    assert OpenFrom(Start1(key), 0, dwords) == out;
    var bytes := DwordsToBytes(out);
    r := Plain(bytes);
  }

  method Open(enc: Word, k: Word) returns (p: Word)
    ensures p == Open1(enc, k)
  {
    p := Rol(enc, 1);
    p := Sub(p, k);
    p := Rol(p, 1);
    p := Sub(p, k);
  }
}
