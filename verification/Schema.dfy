/**
 The rows of the metadata tables, column by column, after ECMA-335 Partition II, sections 22.2 to 22.39, and the
 undocumented pointer and edit-and-continue tables as the code has them.
 */
module Schema {
  import opened Word32
  import opened Tables

  /** No index; one into one table; one into one of several, told apart by so many low bits. */
  datatype Into = None | One(t: nat) | Of(bits: nat, ts: set<nat>)

  /** Bytes of plain numbers; indexes into the string, GUID and blob heaps; indexes into tables. */
  datatype Layout = Layout(plain: nat, strings: nat, guids: nat, blobs: nat, x: Into, y: Into, z: Into)

  const METHOD_DEF_OR_REF := Of(1, {METHOD_DEF, MEMBER_REF})
  const TYPE_DEF_OR_REF := Of(2, {TYPE_DEF, TYPE_REF, TYPE_SPEC})

  function Columns(t: nat): Layout {
    match t
    case 0x00 => Layout(2, 1, 3, 0, None, None, None)  // Module
    case 0x01 => Layout(0, 2, 0, 0, Of(2, {MODULE, MODULE_REF, ASSEMBLY_REF, TYPE_REF}), None, None)  // TypeRef
    case 0x02 => Layout(4, 2, 0, 0, TYPE_DEF_OR_REF, One(FIELD), One(METHOD_DEF))  // TypeDef
    case 0x03 => Layout(0, 0, 0, 0, One(FIELD), None, None)  // FieldPtr
    case 0x04 => Layout(2, 1, 0, 1, None, None, None)  // Field
    case 0x05 => Layout(0, 0, 0, 0, One(METHOD_DEF), None, None)  // MethodPtr
    case 0x06 => Layout(8, 1, 0, 1, One(PARAM), None, None)  // MethodDef
    case 0x07 => Layout(0, 0, 0, 0, One(PARAM), None, None)  // ParamPtr
    case 0x08 => Layout(4, 1, 0, 0, None, None, None)  // Param
    case 0x09 => Layout(0, 0, 0, 0, One(TYPE_DEF), TYPE_DEF_OR_REF, None)  // InterfaceImpl
    case 0x0A => Layout(0, 1, 0, 1, Of(3, {METHOD_DEF, MODULE_REF, TYPE_DEF, TYPE_REF, TYPE_SPEC}), None,
      None)  // MemberRef
    case 0x0B => Layout(2, 0, 0, 1, Of(2, {PARAM, FIELD, PROPERTY}), None, None)  // Constant
    case 0x0C => Layout(0, 0, 0, 1, Of(5, Attributed()), Of(3, {METHOD_DEF, MEMBER_REF}), None)  // CustomAttribute
    case 0x0D => Layout(0, 0, 0, 1, Of(1, {FIELD, PARAM}), None, None)  // FieldMarshal
    case 0x0E => Layout(2, 0, 0, 1, Of(2, {TYPE_DEF, METHOD_DEF, ASSEMBLY}), None, None)  // DeclSecurity
    case 0x0F => Layout(6, 0, 0, 0, One(TYPE_DEF), None, None)  // ClassLayout
    case 0x10 => Layout(4, 0, 0, 0, One(FIELD), None, None)  // FieldLayout
    case 0x11 => Layout(0, 0, 0, 1, None, None, None)  // StandAloneSig
    case 0x12 => Layout(0, 0, 0, 0, One(TYPE_DEF), One(EVENT), None)  // EventMap
    case 0x13 => Layout(0, 0, 0, 0, One(EVENT), None, None)  // EventPtr
    case 0x14 => Layout(2, 1, 0, 0, TYPE_DEF_OR_REF, None, None)  // Event
    case 0x15 => Layout(0, 0, 0, 0, One(TYPE_DEF), One(PROPERTY), None)  // PropertyMap
    case 0x16 => Layout(0, 0, 0, 0, One(PROPERTY), None, None)  // PropertyPtr
    case 0x17 => Layout(2, 1, 0, 1, None, None, None)  // Property
    case 0x18 => Layout(2, 0, 0, 0, One(METHOD_DEF), Of(1, {EVENT, PROPERTY}), None)  // MethodSemantics
    case 0x19 => Layout(0, 0, 0, 0, One(TYPE_DEF), METHOD_DEF_OR_REF, METHOD_DEF_OR_REF)  // MethodImpl
    case 0x1A => Layout(0, 1, 0, 0, None, None, None)  // ModuleRef
    case 0x1B => Layout(0, 0, 0, 1, None, None, None)  // TypeSpec
    case 0x1C => Layout(2, 1, 0, 0, Of(1, {FIELD, METHOD_DEF}), One(MODULE_REF), None)  // ImplMap
    case 0x1D => Layout(4, 0, 0, 0, One(FIELD), None, None)  // FieldRVA
    case 0x1E => Layout(8, 0, 0, 0, None, None, None)  // ENCLog
    case 0x1F => Layout(4, 0, 0, 0, None, None, None)  // ENCMap
    case 0x20 => Layout(16, 2, 0, 1, None, None, None)  // Assembly
    case 0x21 => Layout(4, 0, 0, 0, None, None, None)  // AssemblyProcessor
    case 0x22 => Layout(12, 0, 0, 0, None, None, None)  // AssemblyOS
    case 0x23 => Layout(12, 2, 0, 2, None, None, None)  // AssemblyRef
    case 0x24 => Layout(4, 0, 0, 0, One(ASSEMBLY_REF), None, None)  // AssemblyRefProcessor
    case 0x25 => Layout(12, 0, 0, 0, One(ASSEMBLY_REF), None, None)  // AssemblyRefOS
    case 0x26 => Layout(4, 1, 0, 1, None, None, None)  // File
    case 0x27 => Layout(8, 2, 0, 0, Of(2, {FILE, EXPORTED_TYPE, ASSEMBLY_REF}), None, None)  // ExportedType
    case 0x28 => Layout(8, 1, 0, 0, Of(2, {FILE, EXPORTED_TYPE, ASSEMBLY_REF}), None, None)  // ManifestResource
    case 0x29 => Layout(0, 0, 0, 0, One(TYPE_DEF), One(TYPE_DEF), None)  // NestedClass
    case 0x2A => Layout(4, 1, 0, 0, Of(1, {TYPE_DEF, METHOD_DEF}), None, None)  // GenericParam
    case 0x2B => Layout(0, 0, 0, 1, METHOD_DEF_OR_REF, None, None)  // MethodSpec
    case 0x2C => Layout(0, 0, 0, 0, One(GENERIC_PARAM), TYPE_DEF_OR_REF, None)  // GenericParamConstraint
    case _ => Layout(0, 0, 0, 0, None, None, None)
  }

  /** What a custom attribute can be attached to: anything with a token but attributes and layout. */
  function Attributed(): set<nat> {
    {METHOD_DEF, FIELD, TYPE_REF, TYPE_DEF, PARAM, INTERFACE_IMPL, MEMBER_REF, MODULE, DECL_SECURITY, PROPERTY, EVENT,
      STAND_ALONE_SIG, MODULE_REF, TYPE_SPEC, ASSEMBLY, ASSEMBLY_REF, FILE, EXPORTED_TYPE, MANIFEST_RESOURCE,
      GENERIC_PARAM, GENERIC_PARAM_CONSTRAINT, METHOD_SPEC}
  }

  /** Four bytes where two would not hold every row number and the tag. */
  ghost function IntoWidth(c: Counts, x: Into): nat {
    match x
    case None => 0
    case One(t) => if t < 64 && c[t] >= 0x1_0000 then 4 else 2
    case Of(bits, ts) =>
      if bits <= 16 && exists t :: t in ts && t < 64 && c[t] >= Pow2(16 - bits) then 4 else 2
  }

  function Copies(n: nat, x: nat): nat { if n == 0 then 0 else x + Copies(n - 1, x) }

  ghost function Size(w: Widths, c: Counts, r: Layout): nat {
    r.plain + Copies(r.strings, w.str) + Copies(r.guids, w.guid) + Copies(r.blobs, w.blob) + IntoWidth(c, r.x)
      + IntoWidth(c, r.y) + IntoWidth(c, r.z)
  }

  lemma {:induction false} MostExact(c: Counts, ts: seq<nat>, n: nat)
    requires (forall i :: 0 <= i < |ts| ==> ts[i] < 64) && n >= 1
    ensures MostRows(c, ts) >= n <==> exists i :: 0 <= i < |ts| && c[ts[i]] >= n
    decreases |ts|
  {
    if ts != [] {
      MostExact(c, ts[1..], n);
      if i :| 0 <= i < |ts[1..]| && c[ts[1..][i]] >= n {
        assert c[ts[i + 1]] >= n;
      }
      if i :| 0 <= i < |ts| && c[ts[i]] >= n {
        if i > 0 {
          assert c[ts[1..][i - 1]] >= n;
        }
      }
    }
  }

  lemma CodedIs(c: Counts, bits: nat, ts: seq<nat>, s: set<nat>)
    requires bits <= 16 && (forall i :: 0 <= i < |ts| ==> ts[i] < 64) && forall t :: t in s <==> t in ts
    ensures Coded(c, bits, ts) == IntoWidth(c, Of(bits, s))
  {
    MostExact(c, ts, Pow2(16 - bits));
    hide MostRows, Pow2;
    if i :| 0 <= i < |ts| && c[ts[i]] >= Pow2(16 - bits) {
      assert ts[i] in s;
    }
  }

  /** The coded indexes of the code are the ones of the standard, whatever order they name the tables in. */
  lemma CodedAre(c: Counts)
    ensures TypeDefOrRef(c) == IntoWidth(c, TYPE_DEF_OR_REF) && MethodDefOrRef(c) == IntoWidth(c, METHOD_DEF_OR_REF)
    ensures ResolutionScope(c) == IntoWidth(c, Of(2, {MODULE, MODULE_REF, ASSEMBLY_REF, TYPE_REF}))
    ensures MemberRefParent(c) == IntoWidth(c, Of(3, {METHOD_DEF, MODULE_REF, TYPE_DEF, TYPE_REF, TYPE_SPEC}))
    ensures Implementation(c) == IntoWidth(c, Of(2, {FILE, EXPORTED_TYPE, ASSEMBLY_REF}))
  {
    hide Coded, IntoWidth;
    CodedIs(c, 2, [TYPE_DEF, TYPE_REF, TYPE_SPEC], {TYPE_DEF, TYPE_REF, TYPE_SPEC});
    CodedIs(c, 1, [METHOD_DEF, MEMBER_REF], {METHOD_DEF, MEMBER_REF});
    CodedIs(c, 2, [MODULE, MODULE_REF, ASSEMBLY_REF, TYPE_REF], {MODULE, MODULE_REF, ASSEMBLY_REF, TYPE_REF});
    CodedIs(c, 3, [TYPE_DEF, TYPE_REF, MODULE_REF, METHOD_DEF, TYPE_SPEC],
      {METHOD_DEF, MODULE_REF, TYPE_DEF, TYPE_REF, TYPE_SPEC});
    CodedIs(c, 2, [FILE, ASSEMBLY_REF, EXPORTED_TYPE], {FILE, EXPORTED_TYPE, ASSEMBLY_REF});
  }

  lemma AttributedIs(c: Counts)
    ensures HasCustomAttribute(c) == IntoWidth(c, Of(5, Attributed()))
  {
    hide Coded, IntoWidth;
    CodedIs(c, 5, [METHOD_DEF, FIELD, TYPE_REF, TYPE_DEF, PARAM, INTERFACE_IMPL, MEMBER_REF, MODULE, DECL_SECURITY,
      PROPERTY, EVENT, STAND_ALONE_SIG, MODULE_REF, TYPE_SPEC, ASSEMBLY, ASSEMBLY_REF, FILE, EXPORTED_TYPE,
      MANIFEST_RESOURCE, GENERIC_PARAM, GENERIC_PARAM_CONSTRAINT, METHOD_SPEC], Attributed());
  }

  lemma InlineAre(c: Counts)
    ensures Coded(c, 2, [FIELD, PARAM, PROPERTY]) == IntoWidth(c, Of(2, {PARAM, FIELD, PROPERTY}))
    ensures Coded(c, 3, [METHOD_DEF, MEMBER_REF]) == IntoWidth(c, Of(3, {METHOD_DEF, MEMBER_REF}))
    ensures Coded(c, 1, [FIELD, PARAM]) == IntoWidth(c, Of(1, {FIELD, PARAM}))
    ensures Coded(c, 2, [TYPE_DEF, METHOD_DEF, ASSEMBLY]) == IntoWidth(c, Of(2, {TYPE_DEF, METHOD_DEF, ASSEMBLY}))
    ensures Coded(c, 1, [EVENT, PROPERTY]) == IntoWidth(c, Of(1, {EVENT, PROPERTY}))
    ensures Coded(c, 1, [FIELD, METHOD_DEF]) == IntoWidth(c, Of(1, {FIELD, METHOD_DEF}))
    ensures Coded(c, 1, [TYPE_DEF, METHOD_DEF]) == IntoWidth(c, Of(1, {TYPE_DEF, METHOD_DEF}))
  {
    hide Coded, IntoWidth;
    CodedIs(c, 2, [FIELD, PARAM, PROPERTY], {PARAM, FIELD, PROPERTY});
    CodedIs(c, 3, [METHOD_DEF, MEMBER_REF], {METHOD_DEF, MEMBER_REF});
    CodedIs(c, 1, [FIELD, PARAM], {FIELD, PARAM});
    CodedIs(c, 2, [TYPE_DEF, METHOD_DEF, ASSEMBLY], {TYPE_DEF, METHOD_DEF, ASSEMBLY});
    CodedIs(c, 1, [EVENT, PROPERTY], {EVENT, PROPERTY});
    CodedIs(c, 1, [FIELD, METHOD_DEF], {FIELD, METHOD_DEF});
    CodedIs(c, 1, [TYPE_DEF, METHOD_DEF], {TYPE_DEF, METHOD_DEF});
  }

  /** A row of every table is as long as its columns; a table that is not known has none. */
  lemma SizeExact(w: Widths, c: Counts, t: nat)
    ensures RowSize(w, c, t) == Size(w, c, Columns(t))
  {
    CodedAre(c);
    AttributedIs(c);
    InlineAre(c);
    FewCopies(w.str);
    FewCopies(w.guid);
    FewCopies(w.blob);
    OnesAre(c);
    hide Copies, Coded, Simple, IntoWidth, TypeDefOrRef, MethodDefOrRef, ResolutionScope, MemberRefParent,
      Implementation, HasCustomAttribute, Attributed;
  }

  lemma FewCopies(x: nat)
    ensures Copies(0, x) == 0 && Copies(1, x) == x && Copies(2, x) == x + x && Copies(3, x) == x + x + x
  {
  }

  lemma OnesAre(c: Counts)
    ensures IntoWidth(c, None) == 0 && Simple(c, FIELD) == IntoWidth(c, One(FIELD))
    ensures Simple(c, METHOD_DEF) == IntoWidth(c, One(METHOD_DEF)) && Simple(c, PARAM) == IntoWidth(c, One(PARAM))
    ensures Simple(c, TYPE_DEF) == IntoWidth(c, One(TYPE_DEF)) && Simple(c, EVENT) == IntoWidth(c, One(EVENT))
    ensures Simple(c, PROPERTY) == IntoWidth(c, One(PROPERTY))
    ensures Simple(c, MODULE_REF) == IntoWidth(c, One(MODULE_REF))
    ensures Simple(c, ASSEMBLY_REF) == IntoWidth(c, One(ASSEMBLY_REF))
    ensures Simple(c, GENERIC_PARAM) == IntoWidth(c, One(GENERIC_PARAM))
  {
  }

  // ---- which tables there are ----

  /** Bytes as a number, the least first. */
  function Number(s: seq<Byte>): nat { if s == [] then 0 else s[0] + 0x100 * Number(s[1..]) }

  lemma Number64(b: seq<Byte>)
    requires |b| == 8
    ensures Le64(b) == Number(b)
  {
    var low, high := b[..4], b[4..];
    Number32(low, 0);
    Number32(high, 0);
    Number32(b, Number(high));
    assert b[4..] == high && low[4..] == [] && high[4..] == [];
    hide Number, Le32;
    assert b[..4] == low && low[..4] == low && high[..4] == high;
  }

  lemma Number32(b: seq<Byte>, rest: nat)
    requires |b| >= 4 && rest == Number(b[4..])
    ensures Number(b) == Le32(b[..4]) + 0x1_0000_0000 * rest
  {
    Front(b);
    Front(b[1..]);
    Front(b[2..]);
    Front(b[3..]);
    assert b[1..][1..] == b[2..] && b[2..][1..] == b[3..] && b[3..][1..] == b[4..];
    hide Number;
  }

  lemma Front(b: seq<Byte>)
    requires b != []
    ensures Number(b) == b[0] + 0x100 * Number(b[1..])
  {
  }

  lemma Quotient(x: nat, d: nat, k: nat, r: nat)
    requires d >= 1 && x == k * d + r && r < d
    ensures x / d == k
  {
    var q, m := x / d, x % d;
    assert (q - k) * d == r - m;
    if q > k {
      Grows(1, q - k, d);
      assert false;
    } else if q < k {
      Grows(1, k - q, d);
      assert false;
    }
  }

  lemma Grows(x: int, y: int, a: nat)
    requires x <= y
    ensures x * a <= y * a
  {
  }

  lemma HalfBit(x: nat, t: nat)
    requires t >= 1
    ensures Bit(x, t) <==> Bit(x / 2, t - 1)
  {
    var p := Pow2(t - 1);
    assert Pow2(t) == 2 * p;
    hide Pow2;
    var q, m := x / 2 / p, x / 2 % p;
    assert x / 2 == q * p + m;
    assert q * (2 * p) == 2 * (q * p);
    Quotient(x, 2 * p, q, 2 * m + x % 2);
  }

  /** Adding a multiple of 2^k changes no bit below k; bits from k on are those of the multiple. */
  lemma {:induction false} BitSplit(b: nat, x: nat, k: nat, t: nat)
    requires b < Pow2(k)
    ensures t < k ==> (Bit(b + Pow2(k) * x, t) <==> Bit(b, t))
    ensures t >= k ==> (Bit(b + Pow2(k) * x, t) <==> Bit(x, t - k))
    decreases k
  {
    if k == 0 {
      assert b + 1 * x == x;
    } else {
      var p := Pow2(k - 1);
      assert Pow2(k) * x == 2 * (p * x) by {
        assert 2 * p * x == 2 * (p * x);
      }
      if t == 0 {
        assert Pow2(0) == 1;
        assert (b + 2 * (p * x)) % 2 == b % 2;
      } else {
        HalfBit(b + Pow2(k) * x, t);
        HalfBit(b, t);
        assert (b + 2 * (p * x)) / 2 == b / 2 + p * x;
        BitSplit(b / 2, x, k - 1, t - 1);
      }
    }
  }

  lemma EightBits()
    ensures Pow2(8) == 0x100
  {
    assert Pow2(4) == 16;
  }

  /** Bit t of the number is bit t mod 8 of byte t / 8. */
  lemma {:induction false} BitExact(s: seq<Byte>, t: nat)
    requires t < 8 * |s|
    ensures Bit(Number(s), t) <==> Bit(s[t / 8], t % 8)
    decreases t
  {
    hide Bit, Pow2;
    EightBits();
    BitSplit(s[0], Number(s[1..]), 8, t);
    if t >= 8 {
      BitExact(s[1..], t - 8);
      assert (t - 8) / 8 == t / 8 - 1 && (t - 8) % 8 == t % 8;
    }
  }

  /** Table t is there exactly when bit t mod 8 of the byte at 8 + t / 8 is set. */
  lemma PresentExact(data: seq<Byte>, t: nat)
    requires |data| >= 24 && t < 64
    ensures Present(data, t) <==> data[8 + t / 8] / Pow2(t % 8) % 2 == 1
  {
    hide Pow2, Number, Le64;
    Number64(data[8..16]);
    BitExact(data[8..16], t);
    assert data[8..16][t / 8] == data[8 + t / 8];
  }
}
