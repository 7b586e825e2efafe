/** UPX's call filter (internal/upx/filter.go). */
module UpxFilter {
  import opened Word32

  predicate Hit(op: Byte, e9: bool) { op == 0xE8 || (e9 && op == 0xE9) }

  /** The scan from index i on, adding `sign` times the address behind the operand. */
  function Scan(s: seq<Byte>, e9: bool, i: nat, sign: int): (r: seq<Byte>)
    ensures |r| == |s|
    decreases |s|
  {
    if |s| < 5 then s
    else if Hit(s[0], e9) then [s[0]] + Bytes4(Le32(s[1..5]) + sign * (i + 5)) + Scan(s[5..], e9, i + 5, sign)
    else [s[0]] + Scan(s[1..], e9, i + 1, sign)
  }

  lemma OperandBack(b: seq<Byte>, d: int)
    requires |b| == 4
    ensures Bytes4(Le32(Bytes4(Le32(b) + d)) - d) == b
  {
    hide Bytes4, Le32;
    var x := Le32(b) + d;
    Bytes4Le(x);
    Bytes4Wraps(Le32(b), -(x / TOP));
    assert x % TOP - d == Le32(b) + TOP * (-(x / TOP));
    LeBytes4(b);
  }

  /** The same scan the other way undoes it: the bytes it tests are never the bytes it rewrites. */
  lemma {:induction false} ScanBack(s: seq<Byte>, e9: bool, i: nat, sign: int)
    ensures Scan(Scan(s, e9, i, sign), e9, i, -sign) == s
    decreases |s|
  {
    hide Bytes4, Le32, Hit;
    if |s| >= 5 {
      var t := Scan(s, e9, i, sign);
      if Hit(s[0], e9) {
        var operand := Bytes4(Le32(s[1..5]) + sign * (i + 5));
        assert t[1..5] == operand && t[5..] == Scan(s[5..], e9, i + 5, sign);
        ScanBack(s[5..], e9, i + 5, sign);
        assert -sign * (i + 5) == -(sign * (i + 5));
        OperandBack(s[1..5], sign * (i + 5));
        assert [s[0]] + s[1..5] + s[5..] == s;
      } else {
        assert t[1..] == Scan(s[1..], e9, i + 1, sign);
        ScanBack(s[1..], e9, i + 1, sign);
        assert [s[0]] + s[1..] == s;
      }
    }
  }

  datatype Mode = Nothing | Calls(e9: bool)

  predicate LooksPe(data: seq<Byte>) { |data| > 0x40 && data[0] == 0x4D && data[1] == 0x5A }

  /** What applyFilter does for a filter id; an unknown id is taken for a call filter when the image looks like PE. */
  function ModeOf(data: seq<Byte>, filter: Byte): Mode {
    if filter == 0x00 || filter == 0x01 then Nothing
    else if filter == 0x0E || filter == 0x0F || filter == 0x46
      || filter == 0x49 then Calls(filter == 0x0F || filter == 0x49)
    else if filter in [0x26, 0x16, 0x17, 0x18, 0x19, 0x1A, 0x1B, 0x1C, 0x1D, 0x24, 0x25, 0x36] then Calls(true)
    else if LooksPe(data) then Calls(true)
    else Nothing
  }

  function Filtered(data: seq<Byte>, filter: Byte, sign: int): seq<Byte> {
    match ModeOf(data, filter)
    case Nothing => data
    case Calls(e9) => Scan(data, e9, 0, sign)
  }

  lemma HeaderStays(s: seq<Byte>, e9: bool, sign: int)
    requires LooksPe(s)
    ensures LooksPe(Scan(s, e9, 0, sign))
  {
    var t := Scan(s, e9, 0, sign);
    assert t == [s[0]] + Scan(s[1..], e9, 1, sign);
    assert Scan(s[1..], e9, 1, sign) == [s[1]] + Scan(s[1..][1..], e9, 2, sign);
  }

  lemma HeaderBack(s: seq<Byte>, e9: bool, sign: int)
    ensures LooksPe(Scan(s, e9, 0, sign)) <==> LooksPe(s)
  {
    hide LooksPe;
    if LooksPe(s) {
      HeaderStays(s, e9, sign);
    }
    if LooksPe(Scan(s, e9, 0, sign)) {
      HeaderStays(Scan(s, e9, 0, sign), e9, -sign);
      ScanBack(s, e9, 0, sign);
    }
  }

  /**
   For every filter id, known or not, unfiltering is a bijection on images: adding back what it subtracts undoes it,
   and the reverse.
   */
  lemma FilterBijective(data: seq<Byte>, filter: Byte)
    ensures Filtered(Filtered(data, filter, -1), filter, 1) == data
    ensures Filtered(Filtered(data, filter, 1), filter, -1) == data
  {
    hide Scan, LooksPe;
    var m := ModeOf(data, filter);
    if m.Calls? {
      ScanBack(data, m.e9, 0, -1);
      ScanBack(data, m.e9, 0, 1);
      HeaderBack(data, m.e9, -1);
      HeaderBack(data, m.e9, 1);
    }
  }

  lemma {:induction false} ScanOn(s: seq<Byte>, e9: bool, i: nat, sign: int)
    requires |s| >= 5
    ensures Scan(s, e9, i, sign) ==
            if Hit(s[0], e9) then [s[0]] + Bytes4(Le32(s[1..5]) + sign * (i + 5)) + Scan(s[5..], e9, i + 5, sign)
            else [s[0]] + Scan(s[1..], e9, i + 1, sign)
  {
    hide Bytes4, Le32, Hit;
  }

  /** Absolute to relative, in place. */
  method Rewrite(data: array<Byte>, i: nat)
    requires i + 5 <= data.Length
    modifies data
    ensures data[..] == old(data[..i + 1]) + Bytes4(Le32(old(data[i + 1..i + 5])) - (i + 5)) + old(data[i + 5..])
  {
    hide Bytes4, Le32;
    var abs := Le32(data[i + 1..i + 5]);
    var b := Bytes4(abs - (i + 5));
    data[i + 1], data[i + 2], data[i + 3], data[i + 4] := b[0], b[1], b[2], b[3];
  }

  /** Up to i the scan of s is done: the image is now head, then what is left of s. */
  ghost predicate Done(s: seq<Byte>, now: seq<Byte>, head: seq<Byte>, e9: bool, i: nat) {
    |head| == i <= |s| && now == head + s[i..] && head + Scan(s[i..], e9, i, -1) == Scan(s, e9, 0, -1)
  }

  lemma DoneStarts(s: seq<Byte>, e9: bool)
    ensures Done(s, s, [], e9, 0)
  {
    hide Scan;
    assert s[0..] == s;
  }

  lemma DonePlain(s: seq<Byte>, now: seq<Byte>, head: seq<Byte>, e9: bool, i: nat)
    requires Done(s, now, head, e9, i) && i + 5 <= |s| && !Hit(now[i], e9)
    ensures Done(s, now, head + [s[i]], e9, i + 1)
  {
    hide Scan, Hit;
    var rest := s[i..];
    assert now[i] == rest[0] == s[i] && rest[1..] == s[i + 1..];
    ScanOn(rest, e9, i, -1);
  }

  lemma Slices(s: seq<Byte>, now: seq<Byte>, head: seq<Byte>, i: nat)
    requires |head| == i && i + 5 <= |s| && now == head + s[i..]
    ensures now[i] == s[i..][0] && now[..i + 1] == head + [s[i..][0]]
    ensures now[i + 1..i + 5] == s[i..][1..5] && now[i + 5..] == s[i + 5..] == s[i..][5..]
  {
  }

  lemma Grouped(a: seq<Byte>, b: seq<Byte>, c: seq<Byte>, d: seq<Byte>)
    ensures a + (b + c + d) == a + b + c + d
  {
  }

  lemma Taken(a: seq<Byte>, b: seq<Byte>, c: seq<Byte>)
    ensures (a + b + c)[..|a| + |b|] == a + b && (a + b + c)[|a| + |b|..] == c
  {
  }

  lemma DoneOperand(s: seq<Byte>, now: seq<Byte>, head: seq<Byte>, e9: bool, i: nat, next: seq<Byte>)
    requires Done(s, now, head, e9, i) && i + 5 <= |s| && Hit(now[i], e9)
    requires next == now[..i + 1] + Bytes4(Le32(now[i + 1..i + 5]) - (i + 5)) + now[i + 5..]
    ensures Done(s, next, next[..i + 5], e9, i + 5)
  {
    hide Scan, Hit, Bytes4, Le32;
    var rest := s[i..];
    Slices(s, now, head, i);
    ScanOn(rest, e9, i, -1);
    var b := Bytes4(Le32(rest[1..5]) - (i + 5));
    var x := Scan(rest[5..], e9, i + 5, -1);
    Grouped(head, [rest[0]], b, x);
    Taken(now[..i + 1], b, now[i + 5..]);
  }

  lemma DoneEnds(s: seq<Byte>, now: seq<Byte>, head: seq<Byte>, e9: bool, i: nat)
    requires Done(s, now, head, e9, i) && i + 5 > |s|
    ensures now == Scan(s, e9, 0, -1)
  {
  }

  method FilterE8E9(data: array<Byte>, e9: bool)
    modifies data
    ensures data[..] == Scan(old(data[..]), e9, 0, -1)
  {
    hide Scan, Hit, Done;
    ghost var s := data[..];
    ghost var head: seq<Byte> := [];
    var i := 0;
    DoneStarts(s, e9);
    while i + 5 <= data.Length
      invariant i >= 0 && Done(s, data[..], head, e9, i)
    {
      ghost var now := data[..];
      if !Hit(data[i], e9) {
        DonePlain(s, now, head, e9, i);
        head := head + [s[i]];
        i := i + 1;
      } else {
        Rewrite(data, i);
        assert data[..] == now[..i + 1] + Bytes4(Le32(now[i + 1..i + 5]) - (i + 5)) + now[i + 5..];
        DoneOperand(s, now, head, e9, i, data[..]);
        head := data[..i + 5];
        i := i + 5;
      }
    }
    DoneEnds(s, data[..], head, e9, i);
  }

  method ApplyFilter(data: array<Byte>, filter: Byte)
    modifies data
    ensures data[..] == Filtered(old(data[..]), filter, -1)
  {
    hide Scan;
    var m := ModeOf(data[..], filter);
    if m.Calls? {
      FilterE8E9(data, m.e9);
    }
  }
}

/** The NRV2B decompressor (internal/upx/nrv.go): what the bit stream says, and what is made of it. */
module Nrv {
  import opened Word32

  /** Go's int. */
  function I64(x: int): int {
    var u := x % 0x1_0000_0000_0000_0000;
    if u < 0x8000_0000_0000_0000 then u else u - 0x1_0000_0000_0000_0000
  }

  /** The bit buffer: next byte to load, bits in hand below a sentinel. */
  datatype Bits = Bits(pos: nat, bb: nat)

  datatype Read = Read(v: int, s: Bits) | Eof

  /** Fewer bytes to load, or as many and a smaller buffer. */
  predicate Further(a: Bits, b: Bits) { a.pos < b.pos || (a.pos == b.pos && b.bb < a.bb) }

  function GetBit(data: seq<Byte>, s: Bits): (r: Read)
    requires s.pos <= |data|
    ensures r.Read? ==> r.v in {0, 1} && r.s.pos <= |data| && Further(s, r.s)
  {
    if s.bb % 0x80 == 0 then
      if s.pos >= |data| then Eof else Read((data[s.pos] as int + 0x100) % 2,
        Bits(s.pos + 1, (data[s.pos] as int + 0x100) / 2))
    else Read(s.bb % 2, Bits(s.pos, s.bb / 2))
  }

  function GetByte(data: seq<Byte>, s: Bits): (r: Read)
    requires s.pos <= |data|
    ensures r.Read? ==> 0 <= r.v < 0x100 && r.s.pos <= |data| && Further(s, r.s)
  {
    if s.pos >= |data| then Eof else Read(data[s.pos], Bits(s.pos + 1, s.bb))
  }

  /** A number written as bits, each followed by a bit that says whether it was the last. */
  function Number(data: seq<Byte>, s: Bits, x: int): (r: Read)
    requires s.pos <= |data|
    ensures r.Read? ==> r.s.pos <= |data| && Further(s, r.s)
    decreases |data| - s.pos, s.bb
  {
    var a := GetBit(data, s);
    if a.Eof? then Eof else
    var b := GetBit(data, a.s);
    if b.Eof? then Eof
    else if b.v != 0 then Read(I64(x * 2 + a.v), b.s)
    else Number(data, b.s, I64(x * 2 + a.v))
  }

  function Length(data: seq<Byte>, s: Bits): (r: Read)
    requires s.pos <= |data|
    ensures r.Read? ==> r.s.pos <= |data| && Further(s, r.s)
  {
    var a := GetBit(data, s);
    if a.Eof? then Eof else
    var b := GetBit(data, a.s);
    if b.Eof? then Eof
    else if a.v * 2 + b.v != 0 then Read(a.v * 2 + b.v, b.s)
    else
      var n := Number(data, b.s, 1);
      if n.Eof? then Eof else Read(I64(n.v + 2), n.s)
  }

  datatype Token = Literal(b: Byte) | Copy(off: int, len: int)

  datatype Next = Next(t: Token, s: Bits, lastOff: int) | EndMark | NoMore

  /** The distance of a copy and the new last distance; Copy's length is not read yet. */
  function Distance(data: seq<Byte>, s: Bits, lastOff: int): (r: Next)
    requires s.pos <= |data|
    ensures r.Next? ==> r.t.Copy? && r.s.pos <= |data| && Further(s, r.s)
  {
    var n := Number(data, s, 1);
    if n.Eof? then NoMore
    else if n.v == 2 then Next(Copy(lastOff, 0), n.s, lastOff)
    else
      var b := GetByte(data, n.s);
      if b.Eof? then NoMore else
      var off := I64((n.v - 3) * 0x100 + b.v);
      if off == -1 || off == 0xFFFF_FFFF then EndMark else Next(Copy(I64(off + 1), 0), b.s, I64(off + 1))
  }

  function CopyAt(data: seq<Byte>, s: Bits, lastOff: int): (r: Next)
    requires s.pos <= |data|
    ensures r.Next? ==> r.t.Copy? && r.s.pos <= |data| && Further(s, r.s)
  {
    var d := Distance(data, s, lastOff);
    if !d.Next? then d else
    var n := Length(data, d.s);
    if n.Eof? then NoMore else
    var len := I64(n.v + 1);
    Next(Copy(d.t.off, if d.t.off > 0xD00 then I64(len + 1) else len), n.s, d.lastOff)
  }

  function NextToken(data: seq<Byte>, s: Bits, lastOff: int): (r: Next)
    requires s.pos <= |data|
    ensures r.Next? ==> r.s.pos <= |data| && Further(s, r.s)
  {
    var a := GetBit(data, s);
    if a.Eof? then NoMore
    else if a.v == 0 then CopyAt(data, a.s, lastOff)
    else
      var b := GetByte(data, a.s);
      if b.Eof? then NoMore else Next(Literal(b.v), b.s, lastOff)
  }

  /** The token list the bit stream parses to, whatever is made of it. */
  function Tokens(data: seq<Byte>, s: Bits, lastOff: int): seq<Token>
    requires s.pos <= |data|
    decreases |data| - s.pos, s.bb
  {
    var n := NextToken(data, s, lastOff);
    if n.Next? then [n.t] + Tokens(data, n.s, n.lastOff) else []
  }

  /** The copy loop: one byte after the other, so that a copy may run into itself. */
  function Copied(dst: seq<Byte>, off: int, len: int): (r: seq<Byte>)
    requires 0 < off <= |dst|
    ensures |r| == |dst| + if len > 0 then len else 0
    decreases len
  {
    if len <= 0 then dst else Copied(dst + [dst[|dst| - off]], off, len - 1)
  }

  datatype Result = Out(bytes: seq<Byte>) | Truncated | BadOffset(off: int) | Overflow

  function Trim(dst: seq<Byte>, dstLen: nat): seq<Byte> { if dstLen > 0 && |dst| > dstLen then dst[..dstLen] else dst }

  function Run(data: seq<Byte>, s: Bits, lastOff: int, dst: seq<Byte>, dstLen: nat): Result
    requires s.pos <= |data|
    decreases |data| - s.pos, s.bb
  {
    match NextToken(data, s, lastOff)
    case NoMore => Truncated
    case EndMark => Out(Trim(dst, dstLen))
    case Next(Literal(b), s', last') =>
      if dstLen > 0 && |dst| + 1 > dstLen + 16 then Overflow else Run(data, s', last', dst + [b], dstLen)
    case Next(Copy(off, len), s', last') =>
      if off <= 0 || off > |dst| then BadOffset(off) else
      var d := Copied(dst, off, len);
      if dstLen > 0 && |d| >= dstLen then Out(d[..dstLen]) else Run(data, s', last', d, dstLen)
  }

  function Capacity(data: seq<Byte>, dstLen: int): nat { if dstLen <= 0 then 4 * |data| else dstLen }

  function Decompress(data: seq<Byte>, dstLen: int): Result { Run(data, Bits(0, 0), 1, [], Capacity(data, dstLen)) }

  // ---- the output is the LZ77 expansion of the tokens ----

  /**
   From position `at` on, out is what the tokens say: a literal byte, or bytes equal to those `off` earlier, which are
   already there.
   */
  ghost predicate Explains(toks: seq<Token>, out: seq<Byte>, at: nat)
    decreases |toks|
  {
    if toks == [] then at == |out|
    else
      match toks[0]
      case Literal(b) => at < |out| && out[at] == b && Explains(toks[1..], out, at + 1)
      case Copy(off, len) =>
        var end := at + if len > 0 then len else 0;
        0 < off <= at && end <= |out| && (forall j :: at <= j < end ==> out[j] == out[j - off])
          && Explains(toks[1..], out, end)
  }

  /** The tokens leave no choice. */
  lemma {:induction false} ExplainsOnce(toks: seq<Token>, x: seq<Byte>, y: seq<Byte>, at: nat)
    requires at <= |x| && at <= |y| && x[..at] == y[..at] && Explains(toks, x, at) && Explains(toks, y, at)
    ensures x == y
    decreases |toks|
  {
    if toks == [] {
      assert x[..at] == x && y[..at] == y;
    } else {
      match toks[0]
      case Literal(_) =>
        assert x[..at + 1] == x[..at] + [x[at]] && y[..at + 1] == y[..at] + [y[at]];
        ExplainsOnce(toks[1..], x, y, at + 1);
      case Copy(off, len) =>
        var end := at + if len > 0 then len else 0;
        SameCopy(x, y, at, end, off, end);
        ExplainsOnce(toks[1..], x, y, end);
    }
  }

  lemma {:induction false} SameCopy(x: seq<Byte>, y: seq<Byte>, at: nat, end: nat, off: int, k: nat)
    requires at <= k <= end <= |x| && end <= |y| && 0 < off <= at && x[..at] == y[..at]
    requires forall j :: at <= j < end ==> x[j] == x[j - off] && y[j] == y[j - off]
    ensures x[..k] == y[..k]
    decreases k
  {
    if k > at {
      SameCopy(x, y, at, end, off, k - 1);
      assert x[k - 1 - off] == x[..k - 1][k - 1 - off] && y[k - 1 - off] == y[..k - 1][k - 1 - off];
      assert x[..k] == x[..k - 1] + [x[k - 1]] && y[..k] == y[..k - 1] + [y[k - 1]];
    }
  }

  lemma {:induction false} CopiedIs(dst: seq<Byte>, off: int, len: int)
    requires 0 < off <= |dst|
    ensures var r := Copied(dst, off, len);
      dst <= r && forall j :: |dst| <= j < |r| ==> r[j] == r[j - off]
    decreases len
  {
    if len > 0 {
      var d := dst + [dst[|dst| - off]];
      CopiedIs(d, off, len - 1);
      var r := Copied(dst, off, len);
      assert r[|dst|] == d[|dst|] && r[|dst| - off] == d[|dst| - off];
    }
  }

  /** All of the output before trimming, and how many tokens it took. */
  lemma {:induction false} RunExplained(data: seq<Byte>, s: Bits, lastOff: int, dst: seq<Byte>,
    dstLen: nat) returns (k: nat, full: seq<Byte>)
    requires s.pos <= |data| && Run(data, s, lastOff, dst, dstLen).Out?
    ensures k <= |Tokens(data, s, lastOff)| && dst <= full && Explains(Tokens(data, s, lastOff)[..k], full, |dst|)
    ensures Run(data, s, lastOff, dst, dstLen).bytes == Trim(full, dstLen)
    ensures k == |Tokens(data, s, lastOff)| || (dstLen > 0 && |full| >= dstLen)
    decreases |data| - s.pos, s.bb
  {
    hide NextToken, Copied;
    var n := NextToken(data, s, lastOff);
    if n.EndMark? {
      k, full := 0, dst;
    } else {
      var toks := Tokens(data, s, lastOff);
      assert toks[1..] == Tokens(data, n.s, n.lastOff);
      match n.t
      case Literal(b) =>
        k, full := RunExplained(data, n.s, n.lastOff, dst + [b], dstLen);
        assert toks[..k + 1][1..] == toks[1..][..k];
        k := k + 1;
      case Copy(off, len) =>
        var d := Copied(dst, off, len);
        CopiedIs(dst, off, len);
        if dstLen > 0 && |d| >= dstLen {
          k, full := 1, d;
          assert toks[..1][1..] == [];
        } else {
          k, full := RunExplained(data, n.s, n.lastOff, d, dstLen);
          assert toks[..k + 1][1..] == toks[1..][..k];
          forall j | |dst| <= j < |d|
            ensures full[j] == full[j - off]
          {
            assert full[j] == d[j] && full[j - off] == d[j - off];
          }
          k := k + 1;
        }
    }
  }

  /**
   A successful output is a prefix, no longer than asked for, of the one text that the first k tokens of the bit stream
   describe; k is all of them unless the text has the length asked for by then.
   */
  lemma DecompressExplained(data: seq<Byte>, dstLen: int) returns (k: nat, full: seq<Byte>)
    requires Decompress(data, dstLen).Out?
    ensures var toks := Tokens(data, Bits(0, 0), 1);
      && k <= |toks| && Explains(toks[..k], full, 0)
      && (forall other :: Explains(toks[..k], other, 0) ==> other == full)
      && (k == |toks| || |full| >= Capacity(data, dstLen))
    ensures Decompress(data, dstLen).bytes == Trim(full, Capacity(data, dstLen))
    ensures |Decompress(data, dstLen).bytes| <= Capacity(data, dstLen)
  {
    hide Run, Tokens, Explains;
    k, full := RunExplained(data, Bits(0, 0), 1, [], Capacity(data, dstLen));
    EmptyFails(dstLen);
    forall other | Explains(Tokens(data, Bits(0, 0), 1)[..k], other, 0)
      ensures other == full
    {
      ExplainsOnce(Tokens(data, Bits(0, 0), 1)[..k], other, full, 0);
    }
  }

  lemma EmptyFails(dstLen: int)
    ensures Decompress([], dstLen) == Truncated
  {
  }

  function Half(x: nat, k: nat): nat { if k == 0 then x else Half(x / 2, k - 1) }

  lemma {:induction false} HalfOnce(x: nat, k: nat)
    ensures Half(x, 0) == x && Half(x, k + 1) == Half(x, k) / 2
    decreases k
  {
    if k > 0 {
      HalfOnce(x / 2, k - 1);
    }
  }

  lemma HalfAt(x: nat)
    requires 0x100 <= x < 0x200
    ensures Half(x, 1) == x / 2 && Half(x, 2) == x / 4 && Half(x, 8) == 1 && Half(x, 9) == 0
  {
    HalfOnce(x, 0);
    HalfOnce(x, 1);
    HalfOnce(x, 2);
    HalfOnce(x, 3);
    HalfOnce(x, 4);
    HalfOnce(x, 5);
    HalfOnce(x, 6);
    HalfOnce(x, 7);
    HalfOnce(x, 8);
    hide Half;
    assert 0x20 <= Half(x, 3) < 0x40 && 8 <= Half(x, 5) < 0x10 && 2 <= Half(x, 7) < 4;
  }

  lemma {:induction false} HalfFalls(x: nat, k: nat, m: nat)
    requires k <= m
    ensures Half(x, m) <= Half(x, k)
  {
    if k < m {
      HalfFalls(x, k, m - 1);
      HalfOnce(x, m - 1);
    }
  }

  /**
   How many bits a byte of input is good for before the next is loaded: not eight, but nine, or one when it is 0 or 1.
   */
  lemma ByteGives(b: Byte, k: nat)
    requires 0 < k <= if b < 2 then 1 else 9
    ensures Half(b as int + 0x100, k) % 0x80 == 0 <==> k == if b < 2 then 1 else 9
  {
    var x := b as int + 0x100;
    HalfAt(x);
    hide Half;
    if 2 <= k <= 8 {
      HalfFalls(x, 2, k);
      HalfFalls(x, k, 8);
    }
  }
}

/** The bit buffer object and the decoder's loops. */
module NrvImpl {
  import opened Word32
  import opened Nrv

  class BitBuf {
    const data: seq<Byte>
    var pos: nat
    var bb: nat

    ghost predicate Valid()
      reads this
    {
      pos <= |data|
    }

    ghost function St(): Bits
      reads this
    {
      Bits(pos, bb)
    }

    constructor (data: seq<Byte>)
      ensures Valid() && this.data == data && St() == Bits(0, 0)
    {
      this.data := data;
      pos, bb := 0, 0;
    }

    method TakeBit() returns (bit: int, ok: bool)
      requires Valid()
      modifies this
      ensures Valid() && GetBit(data, old(St())) == if ok then Read(bit, St()) else Eof
    {
      if bb % 0x80 == 0 {
        if pos >= |data| {
          return 0, false;
        }
        bb := data[pos] as int + 0x100;
        pos := pos + 1;
      }
      bit := bb % 2;
      bb := bb / 2;
      ok := true;
    }

    method TakeByte() returns (b: Byte, ok: bool)
      requires Valid()
      modifies this
      ensures Valid() && GetByte(data, old(St())) == if ok then Read(b, St()) else Eof
    {
      if pos >= |data| {
        return 0, false;
      }
      b := data[pos];
      pos := pos + 1;
      ok := true;
    }

    method TakeNumber(start: int) returns (x: int, ok: bool)
      requires Valid()
      modifies this
      ensures Valid() && Number(data, old(St()), start) == if ok then Read(x, St()) else Eof
    {
      x := start;
      while true
        invariant Valid() && Number(data, St(), x) == Number(data, old(St()), start)
        decreases |data| - pos, bb
      {
        ghost var s := St();
        var bit, got := TakeBit();
        if !got {
          return x, false;
        }
        x := I64(x * 2 + bit);
        bit, got := TakeBit();
        if !got {
          return x, false;
        }
        if bit != 0 {
          return x, true;
        }
      }
    }

    method TakeDistance(lastOff: int) returns (off: int, last: int, ok: bool, end: bool)
      requires Valid()
      modifies this
      ensures Valid()
      ensures Distance(data, old(St()), lastOff) == if end then EndMark else if ok then Next(Copy(off, 0), St(), last)
        else NoMore
    {
      hide Number;
      last, end := lastOff, false;
      off, ok := TakeNumber(1);
      if !ok {
        return;
      }
      if off == 2 {
        off := lastOff;
      } else {
        var b: Byte;
        b, ok := TakeByte();
        if !ok {
          return;
        }
        off := I64((off - 3) * 0x100 + b);
        if off == -1 || off == 0xFFFF_FFFF {
          end := true;
          return;
        }
        last := I64(off + 1);
        off := I64(off + 1);
      }
    }

    method TakeLength() returns (mlen: int, ok: bool)
      requires Valid()
      modifies this
      ensures Valid() && Length(data, old(St())) == if ok then Read(mlen, St()) else Eof
    {
      hide Number, GetBit;
      var bit: int;
      mlen, ok := TakeBit();
      if !ok {
        return;
      }
      bit, ok := TakeBit();
      if !ok {
        return;
      }
      mlen := mlen * 2 + bit;
      if mlen == 0 {
        mlen, ok := TakeNumber(1);
        if !ok {
          return;
        }
        mlen := I64(mlen + 2);
      }
    }
  }

  /** What is left to do once the bit that announces a copy is read. */
  function RunCopy(data: seq<Byte>, s: Bits, lastOff: int, dst: seq<Byte>, dstLen: nat): Result
    requires s.pos <= |data|
  {
    match CopyAt(data, s, lastOff)
    case NoMore => Truncated
    case EndMark => Out(Trim(dst, dstLen))
    case Next(Copy(off, len), s', last') =>
      if off <= 0 || off > |dst| then BadOffset(off) else
      var d := Copied(dst, off, len);
      if dstLen > 0 && |d| >= dstLen then Out(d[..dstLen]) else Run(data, s', last', d, dstLen)
    case Next(Literal(_), _, _) => Truncated
  }

  lemma {:induction false} RunIs(data: seq<Byte>, s: Bits, lastOff: int, dst: seq<Byte>, dstLen: nat)
    requires s.pos <= |data|
    ensures var a := GetBit(data, s);
      Run(data, s, lastOff, dst, dstLen) ==
      if a.Eof? then Truncated
      else if a.v == 0 then RunCopy(data, a.s, lastOff, dst, dstLen)
      else
        var b := GetByte(data, a.s);
        if b.Eof? then Truncated
        else if dstLen > 0 && |dst| + 1 > dstLen + 16 then Overflow
        else Run(data, b.s, lastOff, dst + [b.v], dstLen)
  {
    hide CopyAt, GetBit, GetByte, Copied;
  }

  method Nrv2bDecompress(src: seq<Byte>, wanted: int) returns (r: Result)
    ensures r == Decompress(src, wanted)
  {
    hide Run, GetBit, GetByte, RunCopy, Copied, Distance, Length, I64;
    var dstLen := if wanted <= 0 then |src| * 4 else wanted;
    var dst: seq<Byte> := [];
    var bb := new BitBuf(src);
    var lastOff := 1;
    while true
      invariant bb.Valid() && bb.data == src && fresh(bb)
      invariant Run(src, bb.St(), lastOff, dst, dstLen) == Decompress(src, wanted)
      decreases |src| - bb.pos, bb.bb
    {
      ghost var s := bb.St();
      while true
        invariant bb.Valid() && bb.data == src && fresh(bb)
        invariant Run(src, bb.St(), lastOff, dst, dstLen) == Decompress(src, wanted)
        invariant bb.St() == s || Further(s, bb.St())
        decreases |src| - bb.pos, bb.bb
      {
        RunIs(src, bb.St(), lastOff, dst, dstLen);
        var bit, ok := bb.TakeBit();
        if !ok {
          return Truncated;
        }
        if bit == 0 {
          break;
        }
        var b: Byte;
        b, ok := bb.TakeByte();
        if !ok {
          return Truncated;
        }
        dst := dst + [b];
        if dstLen > 0 && |dst| > dstLen + 16 {
          return Overflow;
        }
      }
      CopyIs(src, bb.St(), lastOff, dst, dstLen);
      var off, last, ok, end := bb.TakeDistance(lastOff);
      if end {
        break;
      }
      if !ok {
        return Truncated;
      }
      lastOff := last;
      var mlen: int;
      mlen, ok := bb.TakeLength();
      if !ok {
        return Truncated;
      }
      mlen := I64(mlen + 1);
      if off > 0xD00 {
        mlen := I64(mlen + 1);
      }
      if off <= 0 || off > |dst| {
        return BadOffset(off);
      }
      dst := CopyLoop(dst, off, mlen);
      if dstLen > 0 && |dst| >= dstLen {
        return Out(dst[..dstLen]);
      }
    }
    if dstLen > 0 && |dst| > dstLen {
      dst := dst[..dstLen];
    }
    r := Out(dst);
  }

  lemma {:induction false} CopyIs(data: seq<Byte>, s: Bits, lastOff: int, dst: seq<Byte>, dstLen: nat)
    requires s.pos <= |data|
    ensures var d := Distance(data, s, lastOff);
      && (d.EndMark? ==> RunCopy(data, s, lastOff, dst, dstLen) == Out(Trim(dst, dstLen)))
      && (d.NoMore? ==> RunCopy(data, s, lastOff, dst, dstLen) == Truncated)
      && (d.Next? ==>
            var n := Length(data, d.s);
            if n.Eof? then RunCopy(data, s, lastOff, dst, dstLen) == Truncated else
            var len := if d.t.off > 0xD00 then I64(I64(n.v + 1) + 1) else I64(n.v + 1);
            RunCopy(data, s, lastOff, dst, dstLen) ==
            if d.t.off <= 0 || d.t.off > |dst| then BadOffset(d.t.off) else
            var x := Copied(dst, d.t.off, len);
            if dstLen > 0 && |x| >= dstLen then Out(x[..dstLen]) else Run(data, n.s, d.lastOff, x, dstLen))
  {
    hide Run, Distance, Length, Copied, I64;
  }

  method CopyLoop(start: seq<Byte>, off: int, mlen: int) returns (dst: seq<Byte>)
    requires 0 < off <= |start|
    ensures dst == Copied(start, off, mlen)
  {
    dst := start;
    var i := 0;
    while i < mlen
      invariant |dst| >= |start| && 0 <= i && (i <= mlen || i == 0)
      invariant Copied(start, off, mlen) == Copied(dst, off, mlen - i)
    {
      dst := dst + [dst[|dst| - off]];
      i := i + 1;
    }
  }
}
