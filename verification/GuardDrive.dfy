/** What drives ScriptGuard's mixing, in closed form. */
module GuardDrive {
  import opened Word32
  import opened ScriptGuard

  /** 2^32 divided by the golden ratio, negated modulo 2^32. */
  const GOLDEN := 0x61C88647

  lemma AddOn(a: int, b: int)
    ensures (a % TOP + b) % TOP == (a + b) % TOP
  {
    var q := a / TOP;
    assert a == q * TOP + a % TOP;
    ModShift(a % TOP + b, q);
  }

  lemma {:induction false} SeedExact(k: Keys, i: nat)
    ensures SeedAt(SeedOf(k), i) ==
      Seed((k.p68 + 7 * i) % TOP, (k.p70 + 3 * i) % TOP, (0xDAA66D2B - GOLDEN * i) % TOP, i % TOP)
  {
    if i > 0 {
      SeedExact(k, i - 1);
      AddOn(k.p68 + 7 * (i - 1), 7);
      AddOn(k.p70 + 3 * (i - 1), 3);
      AddOn(0xDAA66D2B - GOLDEN * (i - 1), -GOLDEN);
      AddOn(i - 1, 1);
    }
  }

  lemma {:induction false} CtlExact(c: Ctl, j: nat)
    ensures CtlAt(c, j) == Ctl((c.edx - 0x2B * j) % TOP, (c.r9 - 0x3B * j) % TOP, (c.r10 - 0x25 * j) % TOP,
      (c.r8 + GOLDEN * j) % TOP)
  {
    if j > 0 {
      CtlExact(c, j - 1);
      CtlOn(c, j - 1);
      AddOn(c.edx - 0x2B * (j - 1), -0x2B);
      AddOn(c.r9 - 0x3B * (j - 1), -0x3B);
      AddOn(c.r10 - 0x25 * (j - 1), -0x25);
      AddOn(c.r8 + GOLDEN * (j - 1), GOLDEN);
    }
  }

  /** Before turn j of word i: which key starts which register, and how far each has moved. */
  lemma DriveExact(k: Keys, i: nat, j: nat)
    ensures var c := CtlAt(CtlFor(k, i), j);
      && c.edx == (k.p68 + 0xAC + 7 * i - 0x2B * j) % TOP
      && c.r9 == (k.p70 + 3 * i - 0x3B * j) % TOP
      && c.r10 == (k.p60 + 0x6F + i - 0x25 * j) % TOP
      && c.r8 == (0xDAA66D2B + GOLDEN * (j - i)) % TOP
  {
    hide CtlAt, SeedAt;
    SeedExact(k, i);
    CtlExact(CtlFor(k, i), j);
    AddOn(k.p68 + 7 * i, 0xAC);
    AddOn(k.p68 + 7 * i + 0xAC, -0x2B * j);
    AddOn(k.p70 + 3 * i, -0x3B * j);
    AddOn(k.p60 + 0x6F, i % TOP);
    AddOn(i, k.p60 + 0x6F);
    AddOn(k.p60 + 0x6F + i, -0x25 * j);
    AddOn(0xDAA66D2B - GOLDEN * i, GOLDEN * j);
  }

  /** The i-th power of the multiplier of the C standard's sample rand, and what its increments have become by then. */
  function Lead(i: nat): int { if i == 0 then 1 else 1103515245 * Lead(i - 1) }

  function Tail(i: nat): int { if i == 0 then 0 else 1103515245 * Tail(i - 1) + 12345 }

  function LcgAt(lcg: Word, i: nat): Word { if i == 0 then lcg else NextLcg(LcgAt(lcg, i - 1)) }

  lemma MulOn(a: int, m: int, b: int)
    ensures ((a % TOP) * m % TOP + b) % TOP == (a * m + b) % TOP
  {
    var q := a / TOP;
    assert a == q * TOP + a % TOP;
    AddOn((a % TOP) * m, b);
    Spread(a % TOP, q, m);
    ModShift((a % TOP) * m + b, q * m);
  }

  lemma Spread(r: int, q: int, m: int)
    ensures (q * TOP + r) * m == r * m + TOP * (q * m)
  {
  }

  lemma {:induction false} LcgOn(lcg: Word, i: nat)
    ensures LcgAt(NextLcg(lcg), i) == LcgAt(lcg, i + 1)
  {
    hide NextLcg;
    if i > 0 {
      LcgOn(lcg, i - 1);
    }
  }

  lemma {:induction false} LcgExact(lcg: Word, i: nat)
    ensures LcgAt(lcg, i) == (Lead(i) * lcg + Tail(i)) % TOP
  {
    if i > 0 {
      LcgExact(lcg, i - 1);
      MulOn(Lead(i - 1) * lcg + Tail(i - 1), 1103515245, 12345);
      Factor(Lead(i - 1), lcg, Tail(i - 1));
    }
  }

  lemma Factor(a: int, x: int, b: int)
    ensures (a * x + b) * 1103515245 == 1103515245 * a * x + 1103515245 * b
  {
  }

  /** The prelayer takes word i with the generator's state after i + 1 turns, in closed form. */
  lemma {:induction false} MaskExact(lcg: Word, s: Words, i: nat)
    requires i < |s|
    ensures Mask(lcg, s)[i] == Xor(s[i], (Lead(i + 1) * lcg + Tail(i + 1)) % TOP)
  {
    LcgExact(lcg, i + 1);
    MaskAt(lcg, s, i);
  }

  lemma {:induction false} MaskAt(lcg: Word, s: Words, i: nat)
    requires i < |s|
    ensures Mask(lcg, s)[i] == Xor(s[i], LcgAt(lcg, i + 1))
    decreases i
  {
    hide NextLcg, Xor;
    if i > 0 {
      MaskAt(NextLcg(lcg), s[1..], i - 1);
      LcgOn(lcg, i);
    } else {
      assert LcgAt(lcg, 1) == NextLcg(LcgAt(lcg, 0));
    }
  }
}
