/**
 A compressor for the decompressor: any tokens can be written so that they are read back, a bit to a byte, since a byte
 of 0 or 1 is used up by its lowest bit.
 */
module NrvWriter {
  import opened Word32
  import opened Nrv
  import opened NrvStream

  predicate Clean(items: seq<Item>) { forall i :: 0 <= i < |items| && items[i].Bit? ==> 0 <= items[i].v < 2 }

  function ByteOf(item: Item): Byte
    requires item.Bit? ==> 0 <= item.v < 2
  {
    match item
    case Bit(v) => v
    case Raw(b) => b
  }

  function Packed(items: seq<Item>): (data: seq<Byte>)
    requires Clean(items)
    ensures |data| == |items|
  {
    seq(|items|, i requires 0 <= i < |items| => ByteOf(items[i]))
  }

  /** A byte each, from a buffer that is used up. */
  lemma {:induction false} PackedTakes(data: seq<Byte>, s: Bits, items: seq<Item>)
    requires Clean(items) && s.bb % 0x80 == 0 && s.pos + |items| == |data|
    requires forall i :: 0 <= i < |items| ==> data[s.pos + i] == ByteOf(items[i])
    ensures Take(data, s, items).Took?
    decreases |items|
  {
    hide ByteOf;
    if items == [] {
      TakeNone(data, s);
    } else {
      OneTaken(data, s, items);
      var s' := Bits(s.pos + 1, if items[0].Bit? then 0x80 else s.bb);
      PackedTakes(data, s', items[1..]);
    }
  }

  lemma OneTaken(data: seq<Byte>, s: Bits, items: seq<Item>)
    requires items != [] && Clean(items) && s.bb % 0x80 == 0 && s.pos < |data| && data[s.pos] == ByteOf(items[0])
    ensures Take(data, s, items) ==
      Take(data, Bits(s.pos + 1, if items[0].Bit? then 0x80 else s.bb), items[1..])
  {
    if items[0].Bit? {
      var v := items[0].v;
      assert (v + 0x100) % 2 == v && (v + 0x100) / 2 == 0x80;
    }
  }

  // ---- what is written has bits of 0 and 1 only ----

  lemma CleanBoth(a: seq<Item>, b: seq<Item>)
    requires Clean(a) && Clean(b)
    ensures Clean(a + b)
  {
  }

  lemma {:induction false} BodyClean(n: nat)
    requires n >= 1
    ensures Clean(Body(n))
  {
    if n > 1 {
      BodyClean(n / 2);
      CleanBoth(Body(n / 2), [Bit(n % 2), Bit(0)]);
    }
  }

  lemma NumberClean(n: nat)
    requires n >= 2
    ensures Clean(Number2(n))
  {
    hide Body;
    BodyClean(n / 2);
    CleanBoth(Body(n / 2), [Bit(n % 2), Bit(1)]);
  }

  lemma LengthClean(m: nat)
    requires m >= 1
    ensures Clean(LengthItems(m))
  {
    hide Number2;
    if m >= 4 {
      NumberClean(m - 2);
      CleanBoth([Bit(0), Bit(0)], Number2(m - 2));
    }
  }

  lemma CodeClean(c: Code)
    requires Valid(c)
    ensures Clean(Written(c))
  {
    hide Number2, LengthItems, Clean, I64;
    match c
    case Lit(b) =>
      OneClean(Bit(1), [Raw(b)]);
      assert Written(c) == [Bit(1)] + [Raw(b)];
    case Again(n, m) =>
      NumberClean(n);
      LengthClean(m);
      OneClean(Bit(0), Number2(n));
      CleanBoth([Bit(0)] + Number2(n), LengthItems(m));
    case Fresh(n, lo, m) =>
      NumberClean(n);
      LengthClean(m);
      OneClean(Bit(0), Number2(n));
      OneClean(Raw(lo), []);
      CleanBoth([Bit(0)] + Number2(n), [Raw(lo)]);
      CleanBoth([Bit(0)] + Number2(n) + [Raw(lo)], LengthItems(m));
  }

  lemma OneClean(item: Item, rest: seq<Item>)
    requires (item.Bit? ==> 0 <= item.v < 2) && (rest == [] || (|rest| == 1 && rest[0].Raw?) || Clean(rest))
    ensures Clean([item] + rest) && Clean([item])
  {
  }

  lemma {:induction false} AllClean(cs: seq<Code>)
    requires AllValid(cs)
    ensures Clean(AllWritten(cs))
  {
    hide Written, Valid, Clean;
    if cs == [] {
      NoneClean();
    } else {
      CodeClean(cs[0]);
      AllClean(cs[1..]);
      CleanBoth(Written(cs[0]), AllWritten(cs[1..]));
    }
  }

  lemma NoneClean()
    ensures Clean([])
  {
  }

  lemma EndClean(n: nat, lo: Byte)
    requires n >= 2
    ensures Clean(EndItems(n, lo))
  {
    hide Number2, Clean;
    NumberClean(n);
    OneClean(Bit(0), Number2(n));
    OneClean(Raw(lo), []);
    CleanBoth([Bit(0)] + Number2(n), [Raw(lo)]);
  }

  // ---- the compressor ----

  predicate AllWritable(ts: seq<Token>) { forall i :: 0 <= i < |ts| ==> Writable(ts[i]) }

  function StreamOf(ts: seq<Token>): (items: seq<Item>)
    requires AllWritable(ts)
    ensures Clean(items)
  {
    AllClean(CodesOf(ts, 1));
    EndClean(0x100_0002, 0xFF);
    CleanBoth(AllWritten(CodesOf(ts, 1)), EndItems(0x100_0002, 0xFF));
    AllWritten(CodesOf(ts, 1)) + EndItems(0x100_0002, 0xFF)
  }

  function Compressed(ts: seq<Token>): seq<Byte>
    requires AllWritable(ts)
  {
    Packed(StreamOf(ts))
  }

  lemma CompressedTakes(ts: seq<Token>)
    requires AllWritable(ts)
    ensures Take(Compressed(ts), Bits(0, 0), StreamOf(ts)).Took?
  {
    hide Take, AllWritten, CodesOf, EndItems, Writable, Clean;
    PackedTakes(Compressed(ts), Bits(0, 0), StreamOf(ts));
  }

  /** Decompressing what was compressed gives the text, for every way to take the text apart into tokens. */
  lemma RoundTrip(ts: seq<Token>, text: seq<Byte>, wanted: int)
    requires AllWritable(ts) && Explains(ts, text, 0) && |text| <= wanted && wanted > 0
    ensures Tokens(Compressed(ts), Bits(0, 0), 1) == ts
    ensures Decompress(Compressed(ts), wanted) == Out(text)
  {
    CompressedTakes(ts);
    hide Take, AllWritten, CodesOf, EndItems, Writable, Clean, Explains, Run, Tokens, Packed;
    WriterRead(Compressed(ts), ts);
    WriterRoundTrip(Compressed(ts), ts, text, wanted);
  }

  function Literals(text: seq<Byte>): (ts: seq<Token>)
    ensures |ts| == |text| && AllWritable(ts)
  {
    seq(|text|, i requires 0 <= i < |text| => Literal(text[i]))
  }

  lemma {:induction false} LiteralsExplain(text: seq<Byte>, at: nat)
    requires at <= |text|
    ensures Explains(Literals(text[at..]), text, at)
    decreases |text| - at
  {
    if at < |text| {
      assert Literals(text[at..])[1..] == Literals(text[at + 1..]);
      LiteralsExplain(text, at + 1);
    }
  }

  /** Every text is the decompression of something. */
  lemma EveryText(text: seq<Byte>, wanted: int)
    requires |text| <= wanted && wanted > 0
    ensures Decompress(Compressed(Literals(text)), wanted) == Out(text)
  {
    LiteralsExplain(text, 0);
    assert text[0..] == text;
    hide Literals, Explains, Compressed, Decompress;
    RoundTrip(Literals(text), text, wanted);
  }

  // ---- one stream, byte by byte ----

  const SAMPLE: seq<Byte> := [0xB7, 'A' as int, 'B' as int, 'C' as int, 0x01, 'D' as int, 0x14]

  lemma SampleLiterals()
    ensures NextToken(SAMPLE, Bits(0, 0), 1) == Next(Literal(0x41), Bits(2, 0xDB), 1)
    ensures NextToken(SAMPLE, Bits(2, 0xDB), 1) == Next(Literal(0x42), Bits(3, 0x6D), 1)
    ensures NextToken(SAMPLE, Bits(3, 0x6D), 1) == Next(Literal(0x43), Bits(4, 0x36), 1)
    ensures NextToken(SAMPLE, Bits(5, 1), 2) == Next(Literal(0x44), Bits(6, 0), 2)
  {
  }

  lemma SampleCopies()
    ensures NextToken(SAMPLE, Bits(4, 0x36), 1) == Next(Copy(2, 2), Bits(5, 1), 2)
    ensures NextToken(SAMPLE, Bits(6, 0), 2) == Next(Copy(2, 2), Bits(7, 8), 2)
  {
    assert Number(SAMPLE, Bits(4, 0x1B), 1) == Read(3, Bits(4, 6));
    assert Number(SAMPLE, Bits(7, 0x8A), 1) == Read(2, Bits(7, 0x22));
  }

  /** The last copy repeats the distance of the one before it, over the D between them. */
  lemma SampleText()
    ensures Decompress(SAMPLE, 8) ==
      Out(['A' as int, 'B' as int, 'C' as int, 'B' as int, 'C' as int, 'D' as int, 'C' as int, 'D' as int])
  {
    SampleLiterals();
    SampleCopies();
    hide NextToken, Run;
    var abc, abcbc, abcbcd := [0x41, 0x42, 0x43], [0x41, 0x42, 0x43, 0x42, 0x43], [0x41, 0x42, 0x43, 0x42, 0x43, 0x44];
    RunLiteral(Bits(0, 0), 1, []);
    assert [] + [0x41] == [0x41];
    RunLiteral(Bits(2, 0xDB), 1, [0x41]);
    assert [0x41] + [0x42] == [0x41, 0x42];
    RunLiteral(Bits(3, 0x6D), 1, [0x41, 0x42]);
    assert [0x41, 0x42] + [0x43] == abc;
    assert Copied(abc, 2, 2) == abcbc;
    RunCopy(Bits(4, 0x36), 1, abc);
    RunLiteral(Bits(5, 1), 2, abcbc);
    assert abcbc + [0x44] == abcbcd;
    RunCopy(Bits(6, 0), 2, abcbcd);
    assert Copied(abcbcd, 2, 2) == abcbcd + [0x43, 0x44] == (abcbcd + [0x43, 0x44])[..8];
  }

  lemma RunLiteral(s: Bits, last: int, dst: seq<Byte>)
    requires s.pos <= |SAMPLE| && |dst| < 8
    requires NextToken(SAMPLE, s, last).Next? && NextToken(SAMPLE, s, last).t.Literal?
    ensures var n := NextToken(SAMPLE, s, last);
      Run(SAMPLE, s, last, dst, 8) == Run(SAMPLE, n.s, n.lastOff, dst + [n.t.b], 8)
  {
    hide NextToken;
  }

  lemma RunCopy(s: Bits, last: int, dst: seq<Byte>)
    requires s.pos <= |SAMPLE|
    requires NextToken(SAMPLE, s, last).Next? && NextToken(SAMPLE, s, last).t.Copy?
    requires 0 < NextToken(SAMPLE, s, last).t.off <= |dst|
    ensures var n := NextToken(SAMPLE, s, last);
      var d := Copied(dst, n.t.off, n.t.len);
      Run(SAMPLE, s, last, dst, 8) == if |d| >= 8 then Out(d[..8]) else Run(SAMPLE, n.s, n.lastOff, d, 8)
  {
    hide NextToken;
  }
}
