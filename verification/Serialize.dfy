/** The byte format of chunks (internal/bytecode/serialize.go), as functions on bytes. */
module Serialize {
  import opened Bytecode

  datatype Error = TooShort | BadMagic | UnexpectedEOF | UnknownKind(kind: Byte)

  /** What a read yields: the value and the position after it. */
  datatype Read<+T> = Got(v: T, next: int) | Bad(e: Error)

  // ---- numbers, least significant byte first ----

  function Pow256(n: nat): (p: int)
    ensures p >= 1
  {
    if n == 0 then 1 else 0x100 * Pow256(n - 1)
  }

  function LeBytes(v: int, n: nat): (s: seq<Byte>)
    requires 0 <= v
    ensures |s| == n
  {
    if n == 0 then [] else [v % 0x100] + LeBytes(v / 0x100, n - 1)
  }

  function LeValue(s: seq<Byte>): (v: int)
    ensures 0 <= v < Pow256(|s|)
  {
    if s == [] then 0 else s[0] + 0x100 * LeValue(s[1..])
  }

  /** What is written is read back, modulo the width. */
  lemma {:induction false} LeRoundTrip(v: int, n: nat)
    requires 0 <= v
    ensures LeValue(LeBytes(v, n)) == v % Pow256(n)
    decreases n
  {
    if n > 0 {
      LeRoundTrip(v / 0x100, n - 1);
      var s := LeBytes(v, n);
      assert s[1..] == LeBytes(v / 0x100, n - 1);
      SplitMod(v, Pow256(n - 1));
    }
  }

  lemma SplitMod(v: int, p: int)
    requires 0 <= v && p >= 1
    ensures v % (0x100 * p) == v % 0x100 + 0x100 * (v / 0x100 % p)
  {
    var q, r := v / 0x100, v % 0x100;
    var k, m := q / p, q % p;
    assert v == 0x100 * q + r && q == p * k + m;
    assert v == (0x100 * p) * k + (0x100 * m + r) by {
      assert 0x100 * (p * k) == (0x100 * p) * k;
    }
    ModUnique(v, 0x100 * p, k, 0x100 * m + r);
  }

  lemma ModUnique(v: int, d: int, k: int, r: int)
    requires d >= 1 && v == d * k + r && 0 <= r < d
    ensures v % d == r
  {
    assert v % d - r == d * (k - v / d) by {
      assert v == d * (v / d) + v % d;
      assert d * (k - v / d) == d * k - d * (v / d);
    }
    Multiple(v % d - r, d, k - v / d);
  }

  lemma MulGrows(d: int, k: int)
    requires d >= 1 && k != 0
    ensures d * k >= d || d * k <= -d
  {
    if k >= 1 {
      assert d * k >= d;
    } else {
      assert d * -k >= d;
    }
  }

  lemma Multiple(x: int, d: int, k: int)
    requires d >= 1 && x == d * k && -d < x < d
    ensures x == 0
  {
    if k != 0 {
      MulGrows(d, k);
    }
  }

  lemma Powers()
    ensures Pow256(2) == 0x1_0000 && Pow256(4) == 0x1_0000_0000 && Pow256(8) == 0x1_0000_0000_0000_0000
  {
    assert Pow256(1) == 0x100;
    assert Pow256(3) == 0x100_0000;
    assert Pow256(5) == 0x100_0000_0000;
    assert Pow256(6) == 0x1_0000_0000_0000;
    assert Pow256(7) == 0x100_0000_0000_0000;
  }

  function ToU64(i: I64): U64 { if i < 0 then i + 0x1_0000_0000_0000_0000 else i }

  function FromU64(u: U64): I64 { if u < 0x8000_0000_0000_0000 then u else u - 0x1_0000_0000_0000_0000 }

  // ---- Encode ----

  function U32Bytes(v: int): seq<Byte>
    requires 0 <= v
  {
    LeBytes(v % 0x1_0000_0000, 4)
  }

  function StrBytes(s: Text): seq<Byte> { U32Bytes(|s|) + s }

  function Kind(k: Constant): Byte {
    match k
    case CNull => 0
    case CBool(_) => 1
    case CInt(_) => 2
    case CFloat(_) => 3
    case CStr(_) => 4
    case CBytes(_) => 5
  }

  function Payload(k: Constant): seq<Byte> {
    match k
    case CNull => []
    case CBool(b) => [if b then 1 else 0]
    case CInt(i) => LeBytes(ToU64(i), 8)
    case CFloat(bits) => LeBytes(bits, 8)
    case CStr(s) => StrBytes(s)
    case CBytes(bs) => StrBytes(bs)
  }

  function ConstBytes(k: Constant): seq<Byte> { [Kind(k)] + Payload(k) }

  function ConstsBytes(ks: seq<Constant>): seq<Byte> {
    if ks == [] then [] else ConstsBytes(ks[..|ks| - 1]) + ConstBytes(ks[|ks| - 1])
  }

  function CodeBytes(code: seq<Instr>): seq<Byte> {
    if code == [] then [] else CodeBytes(code[..|code| - 1]) + LeBytes(code[|code| - 1].Word(), 4)
  }

  function LineBytes(lines: seq<U32>): seq<Byte> {
    if lines == [] then [] else LineBytes(lines[..|lines| - 1]) + LeBytes(lines[|lines| - 1], 4)
  }

  function ProtoBytes(p: Proto): seq<Byte> {
    StrBytes(p.name) + [p.numRegs, p.numParams, p.numUpvals] + U32Bytes(|p.code|) + CodeBytes(p.code)
      + U32Bytes(|p.lines|) + LineBytes(p.lines)
  }

  function ProtosBytes(ps: seq<Proto>): seq<Byte> {
    if ps == [] then [] else ProtosBytes(ps[..|ps| - 1]) + ProtoBytes(ps[|ps| - 1])
  }

  const Magic: seq<Byte> := [71, 76, 75, 66]

  /** Go's conversion of the main index to uint32. */
  function MainU32(i: int): U32 { i % 0x1_0000_0000 }

  function EncodeBytes(c: Chunk): seq<Byte> {
    Magic + LeBytes(c.version, 2) + StrBytes(c.sourceName) + U32Bytes(|c.consts|) + ConstsBytes(c.consts)
    + U32Bytes(|c.protos|) + ProtosBytes(c.protos) + LeBytes(MainU32(c.mainIndex), 4)
  }

  // ---- Decode ----

  function ReadLe(b: seq<Byte>, i: int, n: nat): (r: Read<int>)
    requires 0 <= i <= |b|
    ensures r.Got? ==> i + n == r.next <= |b| && 0 <= r.v < Pow256(n)
  {
    if i + n > |b| then Bad(UnexpectedEOF) else Got(LeValue(b[i..i + n]), i + n)
  }

  function ReadBytes(b: seq<Byte>, i: int, n: int): (r: Read<seq<Byte>>)
    requires 0 <= i <= |b| && 0 <= n
    ensures r.Got? ==> i + n == r.next <= |b| && r.v == b[i..i + n]
  {
    if i + n > |b| then Bad(UnexpectedEOF) else Got(b[i..i + n], i + n)
  }

  function ReadStr(b: seq<Byte>, i: int): (r: Read<Text>)
    requires 0 <= i <= |b|
    ensures r.Got? ==> i <= r.next <= |b|
  {
    var n := ReadLe(b, i, 4);
    if n.Bad? then Bad(n.e) else ReadBytes(b, n.next, n.v)
  }

  function ReadConst(b: seq<Byte>, i: int): (r: Read<Constant>)
    requires 0 <= i <= |b|
    ensures r.Got? ==> i < r.next <= |b|
  {
    if i + 1 > |b| then Bad(UnexpectedEOF) else
    Powers();
    match b[i]
    case 0 => Got(CNull, i + 1)
    case 1 => var r := ReadLe(b, i + 1, 1); if r.Bad? then Bad(r.e) else Got(CBool(r.v != 0), r.next)
    case 2 => var r := ReadLe(b, i + 1, 8); if r.Bad? then Bad(r.e) else Got(CInt(FromU64(r.v)), r.next)
    case 3 => var r := ReadLe(b, i + 1, 8); if r.Bad? then Bad(r.e) else Got(CFloat(r.v), r.next)
    case 4 => var r := ReadStr(b, i + 1); if r.Bad? then Bad(r.e) else Got(CStr(r.v), r.next)
    case 5 => var r := ReadStr(b, i + 1); if r.Bad? then Bad(r.e) else Got(CBytes(r.v), r.next)
    case k => Bad(UnknownKind(k))
  }

  /** n constants, one after the other. */
  function ReadConsts(b: seq<Byte>, i: int, n: nat): (r: Read<seq<Constant>>)
    requires 0 <= i <= |b|
    ensures r.Got? ==> i <= r.next <= |b| && |r.v| == n
  {
    if n == 0 then Got([], i) else
    var r := ReadConsts(b, i, n - 1);
    if r.Bad? then Bad(r.e) else
    var k := ReadConst(b, r.next);
    if k.Bad? then Bad(k.e) else Got(r.v + [k.v], k.next)
  }

  function ReadCode(b: seq<Byte>, i: int, n: nat): (r: Read<seq<Instr>>)
    requires 0 <= i <= |b|
    ensures r.Got? ==> i <= r.next <= |b| && |r.v| == n
  {
    if n == 0 then Got([], i) else
    var r := ReadCode(b, i, n - 1);
    if r.Bad? then Bad(r.e) else
    Powers();
    var w := ReadLe(b, r.next, 4);
    if w.Bad? then Bad(w.e) else Got(r.v + [FromWord(w.v)], w.next)
  }

  function ReadLines(b: seq<Byte>, i: int, n: nat): (r: Read<seq<U32>>)
    requires 0 <= i <= |b|
    ensures r.Got? ==> i <= r.next <= |b| && |r.v| == n
  {
    if n == 0 then Got([], i) else
    var r := ReadLines(b, i, n - 1);
    if r.Bad? then Bad(r.e) else
    Powers();
    var w := ReadLe(b, r.next, 4);
    if w.Bad? then Bad(w.e) else Got(r.v + [w.v], w.next)
  }

  function ReadProto(b: seq<Byte>, i: int): (r: Read<Proto>)
    requires 0 <= i <= |b|
    ensures r.Got? ==> i <= r.next <= |b|
  {
    var name := ReadStr(b, i);
    if name.Bad? then Bad(name.e) else
    var regs := ReadBytes(b, name.next, 3);
    if regs.Bad? then Bad(regs.e) else
    var nc := ReadLe(b, regs.next, 4);
    if nc.Bad? then Bad(nc.e) else
    var code := ReadCode(b, nc.next, nc.v);
    if code.Bad? then Bad(code.e) else
    var nl := ReadLe(b, code.next, 4);
    if nl.Bad? then Bad(nl.e) else
    var lines := ReadLines(b, nl.next, nl.v);
    if lines.Bad? then Bad(lines.e) else
    Got(Proto(name.v, regs.v[0], regs.v[1], regs.v[2], code.v, lines.v), lines.next)
  }

  function ReadProtos(b: seq<Byte>, i: int, n: nat): (r: Read<seq<Proto>>)
    requires 0 <= i <= |b|
    ensures r.Got? ==> i <= r.next <= |b| && |r.v| == n
  {
    if n == 0 then Got([], i) else
    var r := ReadProtos(b, i, n - 1);
    if r.Bad? then Bad(r.e) else
    var p := ReadProto(b, r.next);
    if p.Bad? then Bad(p.e) else Got(r.v + [p.v], p.next)
  }

  /** Bytes after the chunk are not looked at. */
  function DecodeBytes(b: seq<Byte>): (r: Read<Chunk>)
    ensures r.Got? ==> 0 <= r.next <= |b|
  {
    if |b| < 8 then Bad(TooShort)
    else if b[..4] != Magic then Bad(BadMagic)
    else
      Powers();
      var ver := ReadLe(b, 4, 2);  // cannot fail: there are eight bytes
      var src := ReadStr(b, ver.next);
      if src.Bad? then Bad(src.e) else
      var nk := ReadLe(b, src.next, 4);
      if nk.Bad? then Bad(nk.e) else
      var ks := ReadConsts(b, nk.next, nk.v);
      if ks.Bad? then Bad(ks.e) else
      var np := ReadLe(b, ks.next, 4);
      if np.Bad? then Bad(np.e) else
      var ps := ReadProtos(b, np.next, np.v);
      if ps.Bad? then Bad(ps.e) else
      var main := ReadLe(b, ps.next, 4);
      if main.Bad? then Bad(main.e) else
      Got(Chunk(ver.v, ks.v, ps.v, main.v, src.v), main.next)
  }

  // ---- a read looks at no byte past the ones it takes ----

  predicate Agree(a: seq<Byte>, b: seq<Byte>, n: int) { 0 <= n <= |a| && n <= |b| && a[..n] == b[..n] }

  lemma AgreeLess(a: seq<Byte>, b: seq<Byte>, n: int, m: int)
    requires Agree(a, b, n) && 0 <= m <= n
    ensures Agree(a, b, m)
    ensures forall i :: 0 <= i <= m ==> a[i..m] == b[i..m]
  {
    assert a[..m] == a[..n][..m] && b[..m] == b[..n][..m];
    forall i | 0 <= i <= m
      ensures a[i..m] == b[i..m]
    {
      assert a[i..m] == a[..m][i..] && b[i..m] == b[..m][i..];
    }
  }

  lemma LocalStr(a: seq<Byte>, b: seq<Byte>, i: int)
    requires 0 <= i <= |a| && ReadStr(a, i).Got? && Agree(a, b, ReadStr(a, i).next)
    ensures i <= |b| && ReadStr(b, i) == ReadStr(a, i)
  {
    var n := ReadLe(a, i, 4);
    AgreeLess(a, b, ReadStr(a, i).next, n.next);
    AgreeLess(a, b, ReadStr(a, i).next, ReadStr(a, i).next);
  }

  lemma LocalConst(a: seq<Byte>, b: seq<Byte>, i: int)
    requires 0 <= i <= |a| && ReadConst(a, i).Got? && Agree(a, b, ReadConst(a, i).next)
    ensures i <= |b| && ReadConst(b, i) == ReadConst(a, i)
  {
    AgreeLess(a, b, ReadConst(a, i).next, i + 1);
    AgreeLess(a, b, ReadConst(a, i).next, ReadConst(a, i).next);
    assert a[i] == a[i..i + 1][0] && b[i] == b[i..i + 1][0];
    if a[i] == 4 || a[i] == 5 {
      LocalStr(a, b, i + 1);
    }
    hide ReadStr;
    hide LeValue;
    hide Pow256;
  }

  lemma {:induction false} LocalConsts(a: seq<Byte>, b: seq<Byte>, i: int, n: nat)
    requires 0 <= i <= |a| && ReadConsts(a, i, n).Got? && Agree(a, b, ReadConsts(a, i, n).next)
    ensures i <= |b| && ReadConsts(b, i, n) == ReadConsts(a, i, n)
    decreases n
  {
    hide ReadConst;
    if n > 0 {
      var r := ReadConsts(a, i, n - 1);
      AgreeLess(a, b, ReadConsts(a, i, n).next, r.next);
      LocalConsts(a, b, i, n - 1);
      LocalConst(a, b, r.next);
    }
  }

  lemma {:induction false} LocalCode(a: seq<Byte>, b: seq<Byte>, i: int, n: nat)
    requires 0 <= i <= |a| && ReadCode(a, i, n).Got? && Agree(a, b, ReadCode(a, i, n).next)
    ensures i <= |b| && ReadCode(b, i, n) == ReadCode(a, i, n)
    decreases n
  {
    hide FromWord;
    hide LeValue;
    hide Pow256;
    if n > 0 {
      var r := ReadCode(a, i, n - 1);
      AgreeLess(a, b, r.next + 4, r.next);
      AgreeLess(a, b, r.next + 4, r.next + 4);
      LocalCode(a, b, i, n - 1);
    }
  }

  lemma {:induction false} LocalLines(a: seq<Byte>, b: seq<Byte>, i: int, n: nat)
    requires 0 <= i <= |a| && ReadLines(a, i, n).Got? && Agree(a, b, ReadLines(a, i, n).next)
    ensures i <= |b| && ReadLines(b, i, n) == ReadLines(a, i, n)
    decreases n
  {
    hide LeValue;
    hide Pow256;
    if n > 0 {
      var r := ReadLines(a, i, n - 1);
      AgreeLess(a, b, r.next + 4, r.next);
      AgreeLess(a, b, r.next + 4, r.next + 4);
      LocalLines(a, b, i, n - 1);
    }
  }

  lemma LocalLe(a: seq<Byte>, b: seq<Byte>, i: int, n: nat, end: int)
    requires 0 <= i <= |a| && ReadLe(a, i, n).Got? && Agree(a, b, end) && ReadLe(a, i, n).next <= end
    ensures i <= |b| && ReadLe(b, i, n) == ReadLe(a, i, n)
  {
    AgreeLess(a, b, end, i + n);
  }

  lemma LocalBytes(a: seq<Byte>, b: seq<Byte>, i: int, n: int, end: int)
    requires 0 <= i <= |a| && 0 <= n && ReadBytes(a, i, n).Got? && Agree(a, b, end) && ReadBytes(a, i, n).next <= end
    ensures i <= |b| && ReadBytes(b, i, n) == ReadBytes(a, i, n)
  {
    AgreeLess(a, b, end, i + n);
  }

  lemma LocalProto(a: seq<Byte>, b: seq<Byte>, i: int)
    requires 0 <= i <= |a| && ReadProto(a, i).Got? && Agree(a, b, ReadProto(a, i).next)
    ensures i <= |b| && ReadProto(b, i) == ReadProto(a, i)
  {
    hide ReadStr;
    hide ReadBytes;
    hide ReadLe;
    hide ReadCode;
    hide ReadLines;
    hide Agree;
    var end := ReadProto(a, i).next;
    var name := ReadStr(a, i);
    var regs := ReadBytes(a, name.next, 3);
    var nc := ReadLe(a, regs.next, 4);
    var code := ReadCode(a, nc.next, nc.v);
    var nl := ReadLe(a, code.next, 4);
    var lines := ReadLines(a, nl.next, nl.v);
    AgreeLess(a, b, end, name.next);
    LocalStr(a, b, i);
    LocalBytes(a, b, name.next, 3, end);
    LocalLe(a, b, regs.next, 4, end);
    AgreeLess(a, b, end, code.next);
    LocalCode(a, b, nc.next, nc.v);
    LocalLe(a, b, code.next, 4, end);
    LocalLines(a, b, nl.next, nl.v);
  }

  lemma {:induction false} LocalProtos(a: seq<Byte>, b: seq<Byte>, i: int, n: nat)
    requires 0 <= i <= |a| && ReadProtos(a, i, n).Got? && Agree(a, b, ReadProtos(a, i, n).next)
    ensures i <= |b| && ReadProtos(b, i, n) == ReadProtos(a, i, n)
    decreases n
  {
    hide ReadProto;
    if n > 0 {
      var r := ReadProtos(a, i, n - 1);
      AgreeLess(a, b, ReadProtos(a, i, n).next, r.next);
      LocalProtos(a, b, i, n - 1);
      LocalProto(a, b, r.next);
    }
  }

  /** Two buffers that agree on the bytes of a chunk decode to that chunk. */
  lemma LocalDecode(a: seq<Byte>, b: seq<Byte>)
    requires DecodeBytes(a).Got? && Agree(a, b, DecodeBytes(a).next)
    ensures DecodeBytes(b) == DecodeBytes(a)
  {
    hide ReadStr;
    hide ReadConsts;
    hide ReadProtos;
    hide LeValue;
    var end := DecodeBytes(a).next;
    var ver := ReadLe(a, 4, 2);
    var src := ReadStr(a, ver.next);
    var nk := ReadLe(a, src.next, 4);
    var ks := ReadConsts(a, nk.next, nk.v);
    var np := ReadLe(a, ks.next, 4);
    var ps := ReadProtos(a, np.next, np.v);
    AgreeLess(a, b, end, 4);
    LocalLe(a, b, 4, 2, end);
    AgreeLess(a, b, end, src.next);
    LocalStr(a, b, ver.next);
    LocalLe(a, b, src.next, 4, end);
    AgreeLess(a, b, end, ks.next);
    LocalConsts(a, b, nk.next, nk.v);
    LocalLe(a, b, ks.next, 4, end);
    AgreeLess(a, b, end, ps.next);
    LocalProtos(a, b, np.next, np.v);
    LocalLe(a, b, ps.next, 4, end);
    hide ReadLe;
    hide Agree;
  }

  // ---- what is written is read back ----

  predicate At(b: seq<Byte>, i: int, s: seq<Byte>) { 0 <= i && i + |s| <= |b| && b[i..i + |s|] == s }

  lemma AtSplit(b: seq<Byte>, i: int, s: seq<Byte>, t: seq<Byte>)
    requires At(b, i, s + t)
    ensures At(b, i, s) && At(b, i + |s|, t)
  {
    assert b[i..i + |s|] == b[i..i + |s + t|][..|s|];
    assert b[i + |s|..i + |s| + |t|] == b[i..i + |s + t|][|s|..];
  }

  lemma LeAt(b: seq<Byte>, i: int, v: int, n: nat)
    requires 0 <= v < Pow256(n) && At(b, i, LeBytes(v, n))
    ensures ReadLe(b, i, n) == Got(v, i + n)
  {
    LeRoundTrip(v, n);
    SmallMod(v, Pow256(n));
  }

  lemma SmallMod(v: int, d: int)
    requires 0 <= v < d
    ensures v % d == v
  {
  }

  lemma U32At(b: seq<Byte>, i: int, v: int)
    requires 0 <= v < 0x1_0000_0000 && At(b, i, U32Bytes(v))
    ensures ReadLe(b, i, 4) == Got(v, i + 4)
  {
    Powers();
    LeAt(b, i, v, 4);
  }

  predicate Short(s: seq<Byte>) { |s| < 0x1_0000_0000 }

  lemma StrAt(b: seq<Byte>, i: int, s: Text)
    requires Short(s) && At(b, i, StrBytes(s))
    ensures 0 <= i <= |b| && ReadStr(b, i) == Got(s, i + |StrBytes(s)|)
  {
    AtSplit(b, i, U32Bytes(|s|), s);
    U32At(b, i, |s|);
    hide U32Bytes;
    hide ReadLe;
  }

  /** Lengths that fit the format. */
  predicate FitsConst(k: Constant) {
    match k
    case CStr(s) => Short(s)
    case CBytes(bs) => Short(bs)
    case _ => true
  }

  predicate FitsProto(p: Proto) { Short(p.name) && |p.code| < 0x1_0000_0000 && |p.lines| < 0x1_0000_0000 }

  predicate Fits(c: Chunk) {
    && Short(c.sourceName) && |c.consts| < 0x1_0000_0000 && |c.protos| < 0x1_0000_0000
    && (forall i :: 0 <= i < |c.consts| ==> FitsConst(c.consts[i]))
    && (forall i :: 0 <= i < |c.protos| ==> FitsProto(c.protos[i]))
  }

  /** A constant with another byte for true: the decoder takes any but 0. */
  function ConstBytesWith(k: Constant, mark: Byte): seq<Byte> {
    if k == CBool(true) then [1, mark] else ConstBytes(k)
  }

  function ConstsBytesWith(ks: seq<Constant>, marks: seq<Byte>): seq<Byte>
    requires |marks| == |ks|
  {
    if ks == [] then [] else
    var n := |ks| - 1;
    ConstsBytesWith(ks[..n], marks[..n]) + ConstBytesWith(ks[n], marks[n])
  }

  predicate Marks(marks: seq<Byte>, ks: seq<Constant>) {
    |marks| == |ks| && forall i :: 0 <= i < |marks| ==> marks[i] != 0
  }

  lemma ConstAt(b: seq<Byte>, i: int, k: Constant, mark: Byte)
    requires FitsConst(k) && mark != 0 && At(b, i, ConstBytesWith(k, mark))
    ensures 0 <= i <= |b| && ReadConst(b, i) == Got(k, i + |ConstBytesWith(k, mark)|)
  {
    var payload := if k == CBool(true) then [mark] else Payload(k);
    PayloadAt(b, i, k, mark);
    Powers();
    hide At, ConstBytesWith;
    hide LeBytes;
    hide LeValue;
    hide Pow256;
    hide ReadStr;
    hide StrBytes;
    match k
    case CNull =>
    case CBool(v) => ByteAt(b, i + 1, if v then mark else 0);
    case CInt(v) => LeAt(b, i + 1, ToU64(v), 8);
    case CFloat(bits) => LeAt(b, i + 1, bits, 8);
    case CStr(s) => StrAt(b, i + 1, s);
    case CBytes(bs) => StrAt(b, i + 1, bs);
  }

  lemma PayloadAt(b: seq<Byte>, i: int, k: Constant, mark: Byte)
    requires At(b, i, ConstBytesWith(k, mark))
    ensures var payload := if k == CBool(true) then [mark] else Payload(k);
      && 0 <= i < |b| && b[i] == Kind(k) && At(b, i + 1, payload) && |ConstBytesWith(k, mark)| == 1 + |payload|
  {
    hide Payload, Kind;
    var payload := if k == CBool(true) then [mark] else Payload(k);
    KindOfTrue();
    assert ConstBytesWith(k, mark) == [Kind(k)] + payload;
    AtSplit(b, i, [Kind(k)], payload);
    assert b[i] == b[i..i + 1][0];
  }

  lemma KindOfTrue()
    ensures Kind(CBool(true)) == 1
  {
  }

  lemma ByteAt(b: seq<Byte>, i: int, v: Byte)
    requires At(b, i, [v])
    ensures ReadLe(b, i, 1) == Got(v, i + 1)
  {
    var s := b[i..i + 1];
    assert s[1..] == [];
    assert LeValue(s) == s[0];
  }

  lemma {:induction false} ConstsAt(b: seq<Byte>, i: int, ks: seq<Constant>, marks: seq<Byte>)
    requires (forall j :: 0 <= j < |ks| ==> FitsConst(ks[j])) && Marks(marks, ks)
      && At(b, i, ConstsBytesWith(ks, marks))
    ensures 0 <= i <= |b| && ReadConsts(b, i, |ks|) == Got(ks, i + |ConstsBytesWith(ks, marks)|)
    decreases |ks|
  {
    hide ConstBytesWith;
    hide ReadConst;
    hide FitsConst;
    if ks != [] {
      var n := |ks| - 1;
      AtSplit(b, i, ConstsBytesWith(ks[..n], marks[..n]), ConstBytesWith(ks[n], marks[n]));
      ConstsAt(b, i, ks[..n], marks[..n]);
      ConstAt(b, i + |ConstsBytesWith(ks[..n], marks[..n])|, ks[n], marks[n]);
      assert ks[..n] + [ks[n]] == ks;
    }
  }

  lemma {:induction false} CodeAt(b: seq<Byte>, i: int, code: seq<Instr>)
    requires At(b, i, CodeBytes(code))
    ensures 0 <= i <= |b| && ReadCode(b, i, |code|) == Got(code, i + |CodeBytes(code)|)
    decreases |code|
  {
    hide LeBytes;
    hide ReadLe;
    hide FromWord;
    hide Instr.Word;
    if code != [] {
      var init, last := code[..|code| - 1], code[|code| - 1];
      AtSplit(b, i, CodeBytes(init), LeBytes(last.Word(), 4));
      CodeAt(b, i, init);
      Powers();
      LeAt(b, i + |CodeBytes(init)|, last.Word(), 4);
      UnpackPack(last);
      assert init + [last] == code;
    }
  }

  lemma {:induction false} LinesAt(b: seq<Byte>, i: int, lines: seq<U32>)
    requires At(b, i, LineBytes(lines))
    ensures 0 <= i <= |b| && ReadLines(b, i, |lines|) == Got(lines, i + |LineBytes(lines)|)
    decreases |lines|
  {
    hide LeBytes;
    hide ReadLe;
    if lines != [] {
      var init, last := lines[..|lines| - 1], lines[|lines| - 1];
      AtSplit(b, i, LineBytes(init), LeBytes(last, 4));
      LinesAt(b, i, init);
      Powers();
      LeAt(b, i + |LineBytes(init)|, last, 4);
      assert init + [last] == lines;
    }
  }

  lemma ProtoAt(b: seq<Byte>, i: int, p: Proto)
    requires FitsProto(p) && At(b, i, ProtoBytes(p))
    ensures 0 <= i <= |b| && ReadProto(b, i) == Got(p, i + |ProtoBytes(p)|)
  {
    hide StrBytes;
    hide U32Bytes;
    hide CodeBytes;
    hide LineBytes;
    hide ReadStr;
    hide ReadLe;
    hide ReadCode;
    hide ReadLines;
    var s1 := StrBytes(p.name);
    var s2 := s1 + [p.numRegs, p.numParams, p.numUpvals];
    var s3 := s2 + U32Bytes(|p.code|);
    var s4 := s3 + CodeBytes(p.code);
    var s5 := s4 + U32Bytes(|p.lines|);
    AtSplit(b, i, s5, LineBytes(p.lines));
    AtSplit(b, i, s4, U32Bytes(|p.lines|));
    AtSplit(b, i, s3, CodeBytes(p.code));
    AtSplit(b, i, s2, U32Bytes(|p.code|));
    AtSplit(b, i, s1, [p.numRegs, p.numParams, p.numUpvals]);
    StrAt(b, i, p.name);
    U32At(b, i + |s2|, |p.code|);
    CodeAt(b, i + |s3|, p.code);
    U32At(b, i + |s4|, |p.lines|);
    LinesAt(b, i + |s5|, p.lines);
    U32Size(|p.code|);
    U32Size(|p.lines|);
  }

  lemma U32Size(v: int)
    requires 0 <= v
    ensures |U32Bytes(v)| == 4
  {
  }

  lemma {:induction false} ProtosAt(b: seq<Byte>, i: int, ps: seq<Proto>)
    requires (forall j :: 0 <= j < |ps| ==> FitsProto(ps[j])) && At(b, i, ProtosBytes(ps))
    ensures 0 <= i <= |b| && ReadProtos(b, i, |ps|) == Got(ps, i + |ProtosBytes(ps)|)
    decreases |ps|
  {
    hide ProtoBytes;
    hide ReadProto;
    hide FitsProto;
    if ps != [] {
      var init, last := ps[..|ps| - 1], ps[|ps| - 1];
      AtSplit(b, i, ProtosBytes(init), ProtoBytes(last));
      ProtosAt(b, i, init);
      ProtoAt(b, i + |ProtosBytes(init)|, last);
      assert init + [last] == ps;
    }
  }

  /** An encoding with these bytes for true. */
  function EncodeWith(c: Chunk, marks: seq<Byte>): seq<Byte>
    requires |marks| == |c.consts|
  {
    Magic + LeBytes(c.version, 2) + StrBytes(c.sourceName) + U32Bytes(|c.consts|) + ConstsBytesWith(c.consts, marks)
    + U32Bytes(|c.protos|) + ProtosBytes(c.protos) + LeBytes(MainU32(c.mainIndex), 4)
  }

  predicate PlainMark(k: Constant, mark: Byte) { k == CBool(true) ==> mark == 1 }

  predicate PlainMarks(ks: seq<Constant>, marks: seq<Byte>)
    requires |marks| == |ks|
  {
    forall i :: 0 <= i < |ks| ==> PlainMark(ks[i], marks[i])
  }

  lemma PlainSplit(ks: seq<Constant>, marks: seq<Byte>)
    requires |marks| == |ks| > 0
    ensures var n := |ks| - 1;
      PlainMarks(ks, marks) <==> PlainMarks(ks[..n], marks[..n]) && PlainMark(ks[n], marks[n])
  {
    hide PlainMark;
    var n := |ks| - 1;
    if PlainMarks(ks[..n], marks[..n]) && PlainMark(ks[n], marks[n]) {
      forall i | 0 <= i < |ks|
        ensures PlainMark(ks[i], marks[i])
      {
        if i < n {
          assert PlainMark(ks[..n][i], marks[..n][i]);
        }
      }
    }
  }

  /** The encoder's byte for true is 1. */
  lemma {:induction false} ConstsWithOnes(ks: seq<Constant>, marks: seq<Byte>)
    requires |marks| == |ks|
    ensures |ConstsBytesWith(ks, marks)| == |ConstsBytes(ks)|
    ensures ConstsBytesWith(ks, marks) == ConstsBytes(ks) <==> PlainMarks(ks, marks)
    decreases |ks|
  {
    hide ConstBytes, ConstBytesWith, PlainMark;
    if ks == [] {
    } else {
      PlainSplit(ks, marks);
      hide PlainMarks;
      var n := |ks| - 1;
      ConstsWithOnes(ks[..n], marks[..n]);
      ConstWithOne(ks[n], marks[n]);
      SameSums(ConstsBytesWith(ks[..n], marks[..n]), ConstBytesWith(ks[n], marks[n]),
        ConstsBytes(ks[..n]), ConstBytes(ks[n]));
    }
  }

  lemma ConstWithOne(k: Constant, mark: Byte)
    ensures |ConstBytesWith(k, mark)| == |ConstBytes(k)|
    ensures ConstBytesWith(k, mark) == ConstBytes(k) <==> PlainMark(k, mark)
  {
    hide StrBytes, LeBytes;
    if k == CBool(true) {
      assert ConstBytes(k)[1] == 1 && ConstBytesWith(k, mark)[1] == mark;
    }
  }

  lemma SameSums(x: seq<Byte>, y: seq<Byte>, u: seq<Byte>, v: seq<Byte>)
    requires |x| == |u| && |y| == |v|
    ensures x + y == u + v <==> x == u && y == v
  {
    if x + y == u + v {
      assert (x + y)[..|x|] == x && (u + v)[..|x|] == u;
      assert (x + y)[|x|..] == y && (u + v)[|x|..] == v;
    }
  }

  /** An encoding with other bytes for true is the encoder's exactly when they are 1. */
  lemma PlainExact(c: Chunk, marks: seq<Byte>)
    requires |marks| == |c.consts|
    ensures EncodeWith(c, marks) == EncodeBytes(c) <==> PlainMarks(c.consts, marks)
  {
    ConstsWithOnes(c.consts, marks);
    hide StrBytes, U32Bytes, LeBytes, ConstsBytes, ConstsBytesWith, ProtosBytes, MainU32;
    var head := Magic + LeBytes(c.version, 2) + StrBytes(c.sourceName) + U32Bytes(|c.consts|);
    var x, y := ConstsBytesWith(c.consts, marks), ConstsBytes(c.consts);
    var a, d, e := U32Bytes(|c.protos|), ProtosBytes(c.protos), LeBytes(MainU32(c.mainIndex), 4);
    SameSums(head + x + a + d, e, head + y + a + d, e);
    SameSums(head + x + a, d, head + y + a, d);
    SameSums(head + x, a, head + y, a);
    SameSums(head, x, head, y);
  }

  /** Decoding takes from the front of any buffer exactly the chunk that was encoded there; the main index comes back
      modulo 2^32. */
  lemma DecodeAt(b: seq<Byte>, c: Chunk, marks: seq<Byte>)
    requires Fits(c) && Marks(marks, c.consts) && At(b, 0, EncodeWith(c, marks))
    ensures DecodeBytes(b) == Got(c.(mainIndex := MainU32(c.mainIndex)), |EncodeWith(c, marks)|)
  {
    hide StrBytes;
    hide U32Bytes;
    hide ConstsBytesWith;
    hide ProtosBytes;
    hide ReadStr;
    hide ReadLe;
    hide ReadConsts;
    hide ReadProtos;
    hide LeBytes;
    var s1 := Magic + LeBytes(c.version, 2);
    var s2 := s1 + StrBytes(c.sourceName);
    var s3 := s2 + U32Bytes(|c.consts|);
    var s4 := s3 + ConstsBytesWith(c.consts, marks);
    var s5 := s4 + U32Bytes(|c.protos|);
    var s6 := s5 + ProtosBytes(c.protos);
    AtSplit(b, 0, s6, LeBytes(MainU32(c.mainIndex), 4));
    AtSplit(b, 0, s5, ProtosBytes(c.protos));
    AtSplit(b, 0, s4, U32Bytes(|c.protos|));
    AtSplit(b, 0, s3, ConstsBytesWith(c.consts, marks));
    AtSplit(b, 0, s2, U32Bytes(|c.consts|));
    AtSplit(b, 0, s1, StrBytes(c.sourceName));
    AtSplit(b, 0, Magic, LeBytes(c.version, 2));
    Powers();
    LeAt(b, 4, c.version, 2);
    StrAt(b, |s1|, c.sourceName);
    U32At(b, |s2|, |c.consts|);
    ConstsAt(b, |s3|, c.consts, marks);
    U32At(b, |s4|, |c.protos|);
    ProtosAt(b, |s5|, c.protos);
    LeAt(b, |s6|, MainU32(c.mainIndex), 4);
    U32Size(|c.consts|);
    U32Size(|c.protos|);
    hide At;
    hide MainU32;
  }

  lemma DecodeEncoded(b: seq<Byte>, c: Chunk)
    requires Fits(c) && At(b, 0, EncodeBytes(c))
    ensures DecodeBytes(b) == Got(c.(mainIndex := MainU32(c.mainIndex)), |EncodeBytes(c)|)
  {
    hide EncodeBytes, EncodeWith, DecodeBytes, Fits, At, MainU32;
    var ones := seq(|c.consts|, i => 1);
    PlainExact(c, ones);
    DecodeAt(b, c, ones);
  }

  /**
   Decoding an encoded chunk gives it back exactly when its main index is a 32-bit number, and leaves what follows.
   */
  lemma RoundTrip(c: Chunk, rest: seq<Byte>)
    requires Fits(c)
    ensures DecodeBytes(EncodeBytes(c) + rest).Got? && DecodeBytes(EncodeBytes(c) + rest).next == |EncodeBytes(c)|
    ensures DecodeBytes(EncodeBytes(c) + rest).v == c <==> 0 <= c.mainIndex < 0x1_0000_0000
  {
    hide EncodeBytes;
    hide DecodeBytes;
    hide Fits;
    var b := EncodeBytes(c) + rest;
    assert b[0..|EncodeBytes(c)|] == EncodeBytes(c);
    DecodeEncoded(b, c);
    assert c.(mainIndex := c.mainIndex) == c;
  }

  // ---- the format, byte by byte, on one chunk with everything in it ----

  lemma LeStep(v: int, n: nat)
    requires v >= 0 && n >= 1
    ensures LeBytes(v, n) == [v % 0x100] + LeBytes(v / 0x100, n - 1) && LeBytes(0, 0) == []
  {
  }

  /** A number below 256, and -2. */
  lemma Small4(v: Byte)
    ensures LeBytes(v, 4) == [v, 0, 0, 0] && U32Bytes(v) == [v, 0, 0, 0] && LeBytes(v, 2) == [v, 0]
  {
    hide LeBytes;
    assert v as int % 0x100 == v as int && v as int / 0x100 == 0;
    LeStep(v, 4);
    LeStep(0, 3);
    LeStep(0, 2);
    LeStep(0, 1);
    LeStep(v, 2);
  }

  lemma Small8(v: Byte)
    ensures LeBytes(v, 8) == [v, 0, 0, 0] + [0, 0, 0, 0]
  {
    LeStep(v, 8);
    LeStep(0, 7);
    LeStep(0, 6);
    LeStep(0, 5);
    Small4(0);
    hide LeBytes;
  }

  lemma MinusTwo()
    ensures LeBytes(ToU64(-2), 8) == [0xFE, 0xFF, 0xFF, 0xFF] + [0xFF, 0xFF, 0xFF, 0xFF]
  {
    LeStep(0xFFFF_FFFF_FFFF_FFFE, 8);
    LeStep(0xFF_FFFF_FFFF_FFFF, 7);
    LeStep(0xFFFF_FFFF_FFFF, 6);
    LeStep(0xFF_FFFF_FFFF, 5);
    LeStep(0xFFFF_FFFF, 4);
    LeStep(0xFF_FFFF, 3);
    LeStep(0xFFFF, 2);
    LeStep(0xFF, 1);
    hide LeBytes;
  }

  lemma SampleWord()
    ensures LeBytes(Instr(11, 12, 13, 14).Word(), 4) == [11, 12, 13, 14]
  {
    var w := Instr(11, 12, 13, 14).Word();
    assert w == 11 + 0x100 * (12 + 0x100 * (13 + 0x100 * 14));
    LeStep(w, 4);
    LeStep(12 + 0x100 * (13 + 0x100 * 14), 3);
    LeStep(13 + 0x100 * 14, 2);
    LeStep(14, 1);
    hide LeBytes;
  }

  lemma SampleConsts()
    ensures ConstBytes(CNull) == [0] && ConstBytes(CBool(true)) == [1, 1] && ConstBytes(CBool(false)) == [1, 0]
    ensures ConstBytes(CInt(-2)) == [2] + ([0xFE, 0xFF, 0xFF, 0xFF] + [0xFF, 0xFF, 0xFF, 0xFF])
    ensures ConstBytes(CFloat(5)) == [3] + ([5, 0, 0, 0] + [0, 0, 0, 0])
    ensures ConstBytes(CStr([97, 98])) == [4] + ([2, 0, 0, 0] + [97, 98])
    ensures ConstBytes(CBytes([7])) == [5] + ([1, 0, 0, 0] + [7])
  {
    MinusTwo();
    Small8(5);
    Small4(1);
    Small4(2);
    hide LeBytes, U32Bytes, ToU64;
  }

  lemma SampleProto()
    ensures ProtoBytes(Proto([109], 3, 1, 4, [Instr(11, 12, 13, 14)], [9])) ==
      [1, 0, 0, 0] + [109] + [3, 1, 4] + [1, 0, 0, 0] + [11, 12, 13, 14] + [1, 0, 0, 0] + [9, 0, 0, 0]
  {
    Small4(1);
    Small4(9);
    SampleWord();
    var p := Proto([109], 3, 1, 4, [Instr(11, 12, 13, 14)], [9]);
    assert p.code[..0] == [] && p.lines[..0] == [];
    hide LeBytes, U32Bytes, Instr.Word;
    assert CodeBytes(p.code) == [11, 12, 13, 14];
    assert LineBytes(p.lines) == [9, 0, 0, 0];
  }

  /** GLKB, version, source name, constants, functions, main index; every number least byte first. */
  lemma SampleBytes()
    ensures EncodeBytes(Chunk(2, [CNull, CBool(true)], [Proto([109], 3, 1, 4, [Instr(11, 12, 13, 14)], [9])], 6,
      [103])) ==
      [71, 76, 75, 66] + [2, 0] + ([1, 0, 0, 0] + [103]) + [2, 0, 0, 0] + ([0] + [1, 1]) + [1, 0, 0, 0]
      + ([1, 0, 0, 0] + [109] + [3, 1, 4] + [1, 0, 0, 0] + [11, 12, 13, 14] + [1, 0, 0, 0] + [9, 0, 0, 0])
      + [6, 0, 0, 0]
  {
    var ks: seq<Constant> := [CNull, CBool(true)];
    var p := Proto([109], 3, 1, 4, [Instr(11, 12, 13, 14)], [9]);
    Small4(1);
    Small4(2);
    Small4(6);
    SampleConsts();
    SampleProto();
    hide LeBytes, U32Bytes, ConstBytes, ProtoBytes, Instr.Word;
    assert ks[..1] == [CNull] && ks[..1][..0] == [] && [p][..0] == [];
    assert ConstsBytes(ks[..1]) == [0];
    assert ConstsBytes(ks) == [0] + [1, 1];
    assert ProtosBytes([p]) == ProtoBytes(p);
    hide ConstsBytes, ProtosBytes;
  }

  // ---- what is read was written ----

  lemma {:induction false} LeBack(s: seq<Byte>)
    ensures LeBytes(LeValue(s), |s|) == s
    decreases |s|
  {
    if s != [] {
      LeBack(s[1..]);
      var v := LeValue(s);
      assert v % 0x100 == s[0] && v / 0x100 == LeValue(s[1..]);
      assert s == [s[0]] + s[1..];
    }
  }

  lemma LeRead(b: seq<Byte>, i: int, n: nat)
    requires 0 <= i <= |b| && ReadLe(b, i, n).Got?
    ensures var r := ReadLe(b, i, n); r.v >= 0 && r.next == i + n <= |b| && b[i..r.next] == LeBytes(r.v, n)
  {
    LeBack(b[i..i + n]);
  }

  lemma U32Read(b: seq<Byte>, i: int)
    requires 0 <= i <= |b| && ReadLe(b, i, 4).Got?
    ensures var r := ReadLe(b, i, 4);
      0 <= r.v < 0x1_0000_0000 && r.next == i + 4 <= |b| && b[i..r.next] == U32Bytes(r.v)
  {
    LeRead(b, i, 4);
    Powers();
  }

  /** Two stretches that meet. */
  lemma Joined(b: seq<Byte>, i: int, j: int, k: int)
    requires 0 <= i <= j <= k <= |b|
    ensures b[i..k] == b[i..j] + b[j..k]
  {
  }

  lemma StrRead(b: seq<Byte>, i: int)
    requires 0 <= i <= |b| && ReadStr(b, i).Got?
    ensures var r := ReadStr(b, i); Short(r.v) && b[i..r.next] == StrBytes(r.v)
  {
    hide LeValue, LeBytes, U32Bytes, Pow256;
    var n := ReadLe(b, i, 4);
    U32Read(b, i);
    Joined(b, i, n.next, ReadStr(b, i).next);
  }

  lemma ConstRead(b: seq<Byte>, i: int) returns (mark: Byte)
    requires 0 <= i <= |b| && ReadConst(b, i).Got?
    ensures var r := ReadConst(b, i); FitsConst(r.v) && mark != 0 && b[i..r.next] == ConstBytesWith(r.v, mark)
  {
    hide LeValue, LeBytes, StrBytes, ReadStr, Pow256;
    Powers();
    var r := ReadConst(b, i);
    mark := if r.v == CBool(true) then b[i + 1] else 1;
    Joined(b, i, i + 1, r.next);
    assert b[i..i + 1] == [b[i]];
    match b[i]
    case 0 => assert b[i + 1..i + 1] == [];
    case 1 =>
      BoolRead(b, i + 1);
      assert b[i + 1..i + 2] == [b[i + 1]];
    case 2 => LeRead(b, i + 1, 8);
    case 3 => LeRead(b, i + 1, 8);
    case 4 => StrRead(b, i + 1);
    case 5 => StrRead(b, i + 1);
  }

  lemma BoolRead(b: seq<Byte>, i: int)
    requires 0 <= i <= |b| && ReadLe(b, i, 1).Got?
    ensures i < |b| && ReadLe(b, i, 1).v == b[i]
  {
    var s := b[i..i + 1];
    assert s[1..] == [];
    assert LeValue(s) == s[0];
  }

  lemma {:induction false} ConstsRead(b: seq<Byte>, i: int, n: nat) returns (marks: seq<Byte>)
    requires 0 <= i <= |b| && ReadConsts(b, i, n).Got?
    ensures var r := ReadConsts(b, i, n);
      && (forall j :: 0 <= j < |r.v| ==> FitsConst(r.v[j])) && Marks(marks, r.v)
      && b[i..r.next] == ConstsBytesWith(r.v, marks)
    decreases n
  {
    hide ReadConst, ConstBytesWith, FitsConst;
    marks := [];
    if n > 0 {
      var init := ReadConsts(b, i, n - 1);
      marks := ConstsRead(b, i, n - 1);
      var mark := ConstRead(b, init.next);
      var r := ReadConsts(b, i, n);
      Joined(b, i, init.next, r.next);
      var all := marks + [mark];
      assert r.v[..n - 1] == init.v && all[..n - 1] == marks;
      marks := all;
    }
  }

  lemma {:induction false} CodeRead(b: seq<Byte>, i: int, n: nat)
    requires 0 <= i <= |b| && ReadCode(b, i, n).Got?
    ensures b[i..ReadCode(b, i, n).next] == CodeBytes(ReadCode(b, i, n).v)
    decreases n
  {
    hide LeBytes, LeValue, FromWord, Instr.Word;
    if n > 0 {
      var init := ReadCode(b, i, n - 1);
      CodeRead(b, i, n - 1);
      Powers();
      var w := ReadLe(b, init.next, 4);
      LeRead(b, init.next, 4);
      PackUnpack(w.v);
      var r := ReadCode(b, i, n);
      Joined(b, i, init.next, r.next);
      assert r.v[..n - 1] == init.v;
    }
  }

  lemma {:induction false} LinesRead(b: seq<Byte>, i: int, n: nat)
    requires 0 <= i <= |b| && ReadLines(b, i, n).Got?
    ensures b[i..ReadLines(b, i, n).next] == LineBytes(ReadLines(b, i, n).v)
    decreases n
  {
    hide LeBytes, LeValue;
    if n > 0 {
      var init := ReadLines(b, i, n - 1);
      LinesRead(b, i, n - 1);
      Powers();
      LeRead(b, init.next, 4);
      var r := ReadLines(b, i, n);
      Joined(b, i, init.next, r.next);
      assert r.v[..n - 1] == init.v;
    }
  }

  lemma ProtoRead(b: seq<Byte>, i: int)
    requires 0 <= i <= |b| && ReadProto(b, i).Got?
    ensures FitsProto(ReadProto(b, i).v) && b[i..ReadProto(b, i).next] == ProtoBytes(ReadProto(b, i).v)
  {
    hide ReadLe, ReadStr, ReadCode, ReadLines, StrBytes, U32Bytes, CodeBytes, LineBytes;
    var name := ReadStr(b, i);
    var regs := ReadBytes(b, name.next, 3);
    var nc := ReadLe(b, regs.next, 4);
    var code := ReadCode(b, nc.next, nc.v);
    var nl := ReadLe(b, code.next, 4);
    var lines := ReadLines(b, nl.next, nl.v);
    StrRead(b, i);
    U32Read(b, regs.next);
    CodeRead(b, nc.next, nc.v);
    U32Read(b, code.next);
    LinesRead(b, nl.next, nl.v);
    Joined(b, i, name.next, regs.next);
    Joined(b, i, regs.next, nc.next);
    Joined(b, i, nc.next, code.next);
    Joined(b, i, code.next, nl.next);
    Joined(b, i, nl.next, lines.next);
    assert regs.v == [regs.v[0], regs.v[1], regs.v[2]];
  }

  lemma {:induction false} ProtosRead(b: seq<Byte>, i: int, n: nat)
    requires 0 <= i <= |b| && ReadProtos(b, i, n).Got?
    ensures var r := ReadProtos(b, i, n);
      (forall j :: 0 <= j < |r.v| ==> FitsProto(r.v[j])) && b[i..r.next] == ProtosBytes(r.v)
    decreases n
  {
    hide ReadProto, ProtoBytes, FitsProto;
    if n > 0 {
      var init := ReadProtos(b, i, n - 1);
      ProtosRead(b, i, n - 1);
      ProtoRead(b, init.next);
      var r := ReadProtos(b, i, n);
      Joined(b, i, init.next, r.next);
      assert r.v[..n - 1] == init.v;
    }
  }

  lemma VersionRead(b: seq<Byte>)
    requires |b| >= 8
    ensures ReadLe(b, 4, 2).Got?
  {
  }

  /** Whatever is decoded is an encoding of what it is decoded to, perhaps with other bytes for true. */
  lemma DecodeRead(b: seq<Byte>) returns (marks: seq<Byte>)
    requires DecodeBytes(b).Got?
    ensures var r := DecodeBytes(b);
      && Fits(r.v) && 0 <= r.v.mainIndex < 0x1_0000_0000 && Marks(marks, r.v.consts)
      && b[..r.next] == EncodeWith(r.v, marks)
  {
    hide ReadLe, ReadStr, ReadConsts, ReadProtos, StrBytes, U32Bytes, LeBytes, ConstsBytesWith, ProtosBytes, Marks,
      FitsConst, FitsProto;
    Powers();
    VersionRead(b);
    var ver := ReadLe(b, 4, 2);
    var src := ReadStr(b, ver.next);
    var nk := ReadLe(b, src.next, 4);
    var ks := ReadConsts(b, nk.next, nk.v);
    var np := ReadLe(b, ks.next, 4);
    var ps := ReadProtos(b, np.next, np.v);
    var main := ReadLe(b, ps.next, 4);
    LeRead(b, 4, 2);
    StrRead(b, ver.next);
    U32Read(b, src.next);
    marks := ConstsRead(b, nk.next, nk.v);
    U32Read(b, ks.next);
    ProtosRead(b, np.next, np.v);
    LeRead(b, ps.next, 4);
    U32Read(b, ps.next);
    Joined(b, 0, 4, ver.next);
    Joined(b, 0, ver.next, src.next);
    Joined(b, 0, src.next, nk.next);
    Joined(b, 0, nk.next, ks.next);
    Joined(b, 0, ks.next, np.next);
    Joined(b, 0, np.next, ps.next);
    Joined(b, 0, ps.next, main.next);
    assert b[..4] == b[0..4] && b[..main.next] == b[0..main.next];
  }

  /** s is an encoding of c: any byte but 0 may stand for true. */
  ghost predicate Encodes(c: Chunk, s: seq<Byte>) {
    exists marks :: Marks(marks, c.consts) && s == EncodeWith(c, marks)
  }

  /**
   A buffer decodes to chunk c, taking n bytes, exactly when its first n bytes are an encoding of c, in which any byte
   but 0 may stand for true, and c is one the format can hold.  Everything else is refused.
   */
  lemma DecodeExact(b: seq<Byte>, c: Chunk, n: int)
    ensures DecodeBytes(b) == Got(c, n) <==>
      Fits(c) && 0 <= c.mainIndex < 0x1_0000_0000 && 0 <= n <= |b| && Encodes(c, b[..n])
  {
    hide DecodeBytes, EncodeWith, Fits;
    if DecodeBytes(b) == Got(c, n) {
      var marks := DecodeRead(b);
    }
    if Fits(c) && 0 <= c.mainIndex < 0x1_0000_0000 && 0 <= n <= |b| && Encodes(c, b[..n]) {
      var marks :| Marks(marks, c.consts) && b[..n] == EncodeWith(c, marks);
      assert b[0..n] == b[..n];
      DecodeAt(b, c, marks);
      assert c.(mainIndex := c.mainIndex) == c;
    }
  }

  /** The encoder's own bytes among them: those with 1 for true. */
  lemma DecodePlain(b: seq<Byte>, c: Chunk, marks: seq<Byte>)
    requires Fits(c) && 0 <= c.mainIndex < 0x1_0000_0000 && Marks(marks, c.consts) && At(b, 0, EncodeWith(c, marks))
    ensures DecodeBytes(b) == Got(c, |EncodeWith(c, marks)|)
    ensures b[..DecodeBytes(b).next] == EncodeBytes(c) <==> PlainMarks(c.consts, marks)
  {
    hide DecodeBytes, EncodeWith, EncodeBytes, Fits;
    DecodeAt(b, c, marks);
    PlainExact(c, marks);
    assert c.(mainIndex := c.mainIndex) == c;
    assert b[0..|EncodeWith(c, marks)|] == b[..|EncodeWith(c, marks)|];
  }

  /** An error of the reading proper. */
  predicate Late(e: Error) { e == UnexpectedEOF || e.UnknownKind? }

  lemma {:induction false} ConstsLate(b: seq<Byte>, i: int, n: nat)
    requires 0 <= i <= |b| && ReadConsts(b, i, n).Bad?
    ensures Late(ReadConsts(b, i, n).e)
    decreases n
  {
    if ReadConsts(b, i, n - 1).Bad? {
      ConstsLate(b, i, n - 1);
    }
  }

  lemma {:induction false} CodeLate(b: seq<Byte>, i: int, n: nat)
    requires 0 <= i <= |b| && ReadCode(b, i, n).Bad?
    ensures Late(ReadCode(b, i, n).e)
    decreases n
  {
    if ReadCode(b, i, n - 1).Bad? {
      CodeLate(b, i, n - 1);
    }
  }

  lemma {:induction false} LinesLate(b: seq<Byte>, i: int, n: nat)
    requires 0 <= i <= |b| && ReadLines(b, i, n).Bad?
    ensures Late(ReadLines(b, i, n).e)
    decreases n
  {
    if ReadLines(b, i, n - 1).Bad? {
      LinesLate(b, i, n - 1);
    }
  }

  lemma ProtoLate(b: seq<Byte>, i: int)
    requires 0 <= i <= |b| && ReadProto(b, i).Bad?
    ensures Late(ReadProto(b, i).e)
  {
    hide ReadCode, ReadLines, LeValue, Pow256;
    var name := ReadStr(b, i);
    if name.Got? && ReadBytes(b, name.next, 3).Got? {
      var nc := ReadLe(b, name.next + 3, 4);
      if nc.Got? {
        var code := ReadCode(b, nc.next, nc.v);
        if code.Bad? {
          CodeLate(b, nc.next, nc.v);
        } else {
          var nl := ReadLe(b, code.next, 4);
          if nl.Got? && ReadLines(b, nl.next, nl.v).Bad? {
            LinesLate(b, nl.next, nl.v);
          }
        }
      }
    }
  }

  lemma {:induction false} ProtosLate(b: seq<Byte>, i: int, n: nat)
    requires 0 <= i <= |b| && ReadProtos(b, i, n).Bad?
    ensures Late(ReadProtos(b, i, n).e)
    decreases n
  {
    hide ReadProto;
    var r := ReadProtos(b, i, n - 1);
    if r.Bad? {
      ProtosLate(b, i, n - 1);
    } else {
      ProtoLate(b, r.next);
    }
  }

  /** The refusals that need no reading: fewer than eight bytes, or not the four letters GLKB in front. */
  lemma RefusedAtOnce(b: seq<Byte>)
    ensures DecodeBytes(b) == Bad(TooShort) <==> |b| < 8
    ensures DecodeBytes(b) == Bad(BadMagic) <==>
      |b| >= 8 && !(b[0] == 'G' as int && b[1] == 'L' as int && b[2] == 'K' as int && b[3] == 'B' as int)
  {
    hide ReadConsts, ReadProtos, LeValue, Pow256;
    if |b| >= 8 {
      assert b[..4] == [b[0], b[1], b[2], b[3]];
      var src := ReadStr(b, 6);
      if src.Got? {
        var nk := ReadLe(b, src.next, 4);
        if nk.Got? {
          var ks := ReadConsts(b, nk.next, nk.v);
          if ks.Bad? {
            ConstsLate(b, nk.next, nk.v);
          } else {
            var np := ReadLe(b, ks.next, 4);
            if np.Got? && ReadProtos(b, np.next, np.v).Bad? {
              ProtosLate(b, np.next, np.v);
            }
          }
        }
      }
    }
  }

  /** No chunk is decoded from a part of its encoding: the format is self-delimiting. */
  lemma PrefixRejected(c: Chunk, n: nat)
    requires Fits(c) && n < |EncodeBytes(c)|
    ensures DecodeBytes(EncodeBytes(c)[..n]).Bad?
  {
    hide EncodeBytes;
    hide Fits;
    hide DecodeBytes;
    var b := EncodeBytes(c);
    assert b[0..|b|] == b;
    DecodeEncoded(b, c);
    if DecodeBytes(b[..n]).Got? {
      var m := DecodeBytes(b[..n]).next;
      assert b[..n][..m] == b[..m];
      LocalDecode(b[..n], b);
    }
  }
}

/** Encode and Decode as the source writes them. */
module SerializeImpl {
  import opened Bytecode
  import opened Serialize

  method Encode(c: Chunk) returns (b: seq<Byte>)
    ensures b == EncodeBytes(c)
  {
    hide U32Bytes, StrBytes, ConstBytes, ProtoBytes, LeBytes;
    b := Magic;
    b := b + LeBytes(c.version, 2);
    b := b + StrBytes(c.sourceName);
    b := b + U32Bytes(|c.consts|);
    ghost var s := b;
    for i := 0 to |c.consts|
      invariant b == s + ConstsBytes(c.consts[..i])
    {
      assert c.consts[..i + 1][..i] == c.consts[..i];
      b := b + [Kind(c.consts[i])] + Payload(c.consts[i]);
      ConstIs(c.consts[i]);
      assert b == s + (ConstsBytes(c.consts[..i]) + ConstBytes(c.consts[i]));
    }
    assert c.consts[..|c.consts|] == c.consts;
    b := b + U32Bytes(|c.protos|);
    s := b;
    for i := 0 to |c.protos|
      invariant b == s + ProtosBytes(c.protos[..i])
    {
      assert c.protos[..i + 1][..i] == c.protos[..i];
      var p := EncodeProto(c.protos[i]);
      assert b + p == s + (ProtosBytes(c.protos[..i]) + ProtoBytes(c.protos[i]));
      b := b + p;
    }
    assert c.protos[..|c.protos|] == c.protos;
    b := b + LeBytes(MainU32(c.mainIndex), 4);
  }

  lemma ConstIs(k: Constant)
    ensures ConstBytes(k) == [Kind(k)] + Payload(k)
  {
    hide Payload;
  }

  method EncodeProto(p: Proto) returns (b: seq<Byte>)
    ensures b == ProtoBytes(p)
  {
    hide U32Bytes, StrBytes, LeBytes, Instr.Word;
    b := StrBytes(p.name);
    b := b + [p.numRegs, p.numParams, p.numUpvals];
    b := b + U32Bytes(|p.code|);
    ghost var s := b;
    for i := 0 to |p.code|
      invariant b == s + CodeBytes(p.code[..i])
    {
      assert p.code[..i + 1][..i] == p.code[..i];
      var w := LeBytes(p.code[i].Word(), 4);
      assert b + w == s + (CodeBytes(p.code[..i]) + w);
      b := b + w;
    }
    assert p.code[..|p.code|] == p.code;
    b := b + U32Bytes(|p.lines|);
    s := b;
    for i := 0 to |p.lines|
      invariant b == s + LineBytes(p.lines[..i])
    {
      assert p.lines[..i + 1][..i] == p.lines[..i];
      var w := LeBytes(p.lines[i], 4);
      assert b + w == s + (LineBytes(p.lines[..i]) + w);
      b := b + w;
    }
    assert p.lines[..|p.lines|] == p.lines;
  }

  /** The cursor: every method either reads what the function of its name reads at i and moves past it, or fails. */
  class Reader {
    const b: seq<Byte>
    var i: int

    ghost predicate Valid()
      reads this
    {
      0 <= i <= |b|
    }

    constructor (b: seq<Byte>, i: int)
      requires 0 <= i <= |b|
      ensures Valid() && this.b == b && this.i == i
    {
      this.b, this.i := b, i;
    }

    method Le(n: nat) returns (r: Read<int>)
      requires Valid()
      modifies this
      ensures Valid() && r == ReadLe(b, old(i), n) && i == if r.Got? then r.next else old(i)
    {
      if i + n > |b| {
        return Bad(UnexpectedEOF);
      }
      r := Got(LeValue(b[i..i + n]), i + n);
      i := i + n;
    }

    method Bytes(n: nat) returns (r: Read<seq<Byte>>)
      requires Valid()
      modifies this
      ensures Valid() && r == ReadBytes(b, old(i), n) && i == if r.Got? then r.next else old(i)
    {
      if i + n > |b| {
        return Bad(UnexpectedEOF);
      }
      r := Got(b[i..i + n], i + n);
      i := i + n;
    }

    method Str() returns (r: Read<Text>)
      requires Valid()
      modifies this
      ensures Valid() && r == ReadStr(b, old(i)) && (r.Got? ==> i == r.next)
    {
      var n := Le(4);
      if n.Bad? {
        return Bad(n.e);
      }
      r := Bytes(n.v);
    }

    method Const() returns (r: Read<Constant>)
      requires Valid()
      modifies this
      ensures Valid() && r == ReadConst(b, old(i)) && (r.Got? ==> i == r.next)
    {
      hide ReadLe, ReadStr;
      if i + 1 > |b| {
        return Bad(UnexpectedEOF);
      }
      var kind := b[i];
      i := i + 1;
      Powers();
      match kind
      case 0 => r := Got(CNull, i);
      case 1 =>
        var v := Le(1);
        r := if v.Bad? then Bad(v.e) else Got(CBool(v.v != 0), i);
      case 2 =>
        var v := Le(8);
        r := if v.Bad? then Bad(v.e) else Got(CInt(FromU64(v.v)), i);
      case 3 =>
        var v := Le(8);
        r := if v.Bad? then Bad(v.e) else Got(CFloat(v.v), i);
      case 4 =>
        var v := Str();
        r := if v.Bad? then Bad(v.e) else Got(CStr(v.v), i);
      case 5 =>
        var v := Str();
        r := if v.Bad? then Bad(v.e) else Got(CBytes(v.v), i);
      case k => r := Bad(UnknownKind(k));
    }

    method Consts(n: nat) returns (r: Read<seq<Constant>>)
      requires Valid()
      modifies this
      ensures Valid() && (if r.Got? then r == ReadConsts(b, old(i), n) && i == r.next
        else ReadConsts(b, old(i), n) == Bad(r.e))
    {
      hide ReadConst;
      var ks: seq<Constant> := [];
      for j := 0 to n
        invariant Valid() && ReadConsts(b, old(i), j) == Got(ks, i)
      {
        var k := Const();
        if k.Bad? {
          ConstsFail(b, old(i), n, j + 1, k.e);
          return Bad(k.e);
        }
        ks := ks + [k.v];
      }
      r := Got(ks, i);
    }

    method CodeWords(n: nat) returns (r: Read<seq<Instr>>)
      requires Valid()
      modifies this
      ensures Valid() && (if r.Got? then r == ReadCode(b, old(i), n) && i == r.next
        else ReadCode(b, old(i), n) == Bad(r.e))
    {
      hide ReadLe, FromWord;
      Powers();
      var code: seq<Instr> := [];
      for j := 0 to n
        invariant Valid() && ReadCode(b, old(i), j) == Got(code, i)
      {
        var w := Le(4);
        if w.Bad? {
          CodeFail(b, old(i), n, j + 1, w.e);
          return Bad(w.e);
        }
        code := code + [FromWord(w.v)];
      }
      r := Got(code, i);
    }

    method Lines(n: nat) returns (r: Read<seq<U32>>)
      requires Valid()
      modifies this
      ensures Valid() && (if r.Got? then r == ReadLines(b, old(i), n) && i == r.next
        else ReadLines(b, old(i), n) == Bad(r.e))
    {
      hide ReadLe;
      Powers();
      var lines: seq<U32> := [];
      for j := 0 to n
        invariant Valid() && ReadLines(b, old(i), j) == Got(lines, i)
      {
        var w := Le(4);
        if w.Bad? {
          LinesFail(b, old(i), n, j + 1, w.e);
          return Bad(w.e);
        }
        lines := lines + [w.v];
      }
      r := Got(lines, i);
    }

    method OneProto() returns (r: Read<Proto>)
      requires Valid()
      modifies this
      ensures Valid() && r == ReadProto(b, old(i)) && (r.Got? ==> i == r.next)
    {
      hide ReadLe, ReadStr, ReadBytes, ReadCode, ReadLines;
      var name := Str();
      if name.Bad? { return Bad(name.e); }
      var regs := Bytes(3);
      if regs.Bad? { return Bad(regs.e); }
      var ncode := Le(4);
      if ncode.Bad? { return Bad(ncode.e); }
      var code := CodeWords(ncode.v);
      if code.Bad? { return Bad(code.e); }
      var nlines := Le(4);
      if nlines.Bad? { return Bad(nlines.e); }
      var lines := Lines(nlines.v);
      if lines.Bad? { return Bad(lines.e); }
      r := Got(Proto(name.v, regs.v[0], regs.v[1], regs.v[2], code.v, lines.v), i);
    }

    method Protos(n: nat) returns (r: Read<seq<Proto>>)
      requires Valid()
      modifies this
      ensures Valid() && (if r.Got? then r == ReadProtos(b, old(i), n) && i == r.next
        else ReadProtos(b, old(i), n) == Bad(r.e))
    {
      hide ReadProto;
      var ps: seq<Proto> := [];
      for j := 0 to n
        invariant Valid() && ReadProtos(b, old(i), j) == Got(ps, i)
      {
        var p := OneProto();
        if p.Bad? {
          ProtosFail(b, old(i), n, j + 1, p.e);
          return Bad(p.e);
        }
        ps := ps + [p.v];
      }
      r := Got(ps, i);
    }
  }

  /** The first failure in a list is the list's. */
  lemma {:induction false} ConstsFail(b: seq<Byte>, i: int, n: nat, m: nat, e: Error)
    requires 0 <= i <= |b| && m <= n && ReadConsts(b, i, m) == Bad(e)
    ensures ReadConsts(b, i, n) == Bad(e)
    decreases n
  {
    hide ReadConst;
    if m < n {
      ConstsFail(b, i, n - 1, m, e);
    }
  }

  lemma {:induction false} CodeFail(b: seq<Byte>, i: int, n: nat, m: nat, e: Error)
    requires 0 <= i <= |b| && m <= n && ReadCode(b, i, m) == Bad(e)
    ensures ReadCode(b, i, n) == Bad(e)
    decreases n
  {
    hide ReadLe;
    if m < n {
      CodeFail(b, i, n - 1, m, e);
    }
  }

  lemma {:induction false} LinesFail(b: seq<Byte>, i: int, n: nat, m: nat, e: Error)
    requires 0 <= i <= |b| && m <= n && ReadLines(b, i, m) == Bad(e)
    ensures ReadLines(b, i, n) == Bad(e)
    decreases n
  {
    hide ReadLe;
    if m < n {
      LinesFail(b, i, n - 1, m, e);
    }
  }

  lemma {:induction false} ProtosFail(b: seq<Byte>, i: int, n: nat, m: nat, e: Error)
    requires 0 <= i <= |b| && m <= n && ReadProtos(b, i, m) == Bad(e)
    ensures ReadProtos(b, i, n) == Bad(e)
    decreases n
  {
    hide ReadProto;
    if m < n {
      ProtosFail(b, i, n - 1, m, e);
    }
  }

  method Decode(data: seq<Byte>) returns (r: Read<Chunk>)
    ensures r == DecodeBytes(data)
  {
    hide ReadStr, ReadConsts, ReadProtos, LeValue;
    if |data| < 8 {
      return Bad(TooShort);
    }
    if data[..4] != Magic {
      return Bad(BadMagic);
    }
    Powers();
    var rd := new Reader(data, 4);
    var ver := rd.Le(2);
    var src := rd.Str();
    if src.Bad? { return Bad(src.e); }
    var nconst := rd.Le(4);
    if nconst.Bad? { return Bad(nconst.e); }
    var consts := rd.Consts(nconst.v);
    if consts.Bad? { return Bad(consts.e); }
    var nproto := rd.Le(4);
    if nproto.Bad? { return Bad(nproto.e); }
    var protos := rd.Protos(nproto.v);
    if protos.Bad? { return Bad(protos.e); }
    var main := rd.Le(4);
    if main.Bad? { return Bad(main.e); }
    r := Got(Chunk(ver.v, consts.v, protos.v, main.v, src.v), rd.i);
  }
}
