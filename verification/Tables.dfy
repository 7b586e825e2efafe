/**
 The .NET metadata tables (internal/dotnet/tables.go; ECMA-335 Partition II, section 24.2.6): layout, rows, accessors.
 */
module Tables {
  import opened Word32

  const MODULE := 0x00
  const TYPE_REF := 0x01
  const TYPE_DEF := 0x02
  const FIELD := 0x04
  const METHOD_DEF := 0x06
  const PARAM := 0x08
  const INTERFACE_IMPL := 0x09
  const MEMBER_REF := 0x0A
  const DECL_SECURITY := 0x0E
  const STAND_ALONE_SIG := 0x11
  const EVENT := 0x14
  const PROPERTY := 0x17
  const MODULE_REF := 0x1A
  const TYPE_SPEC := 0x1B
  const ASSEMBLY := 0x20
  const ASSEMBLY_REF := 0x23
  const FILE := 0x26
  const EXPORTED_TYPE := 0x27
  const MANIFEST_RESOURCE := 0x28
  const GENERIC_PARAM := 0x2A
  const METHOD_SPEC := 0x2B
  const GENERIC_PARAM_CONSTRAINT := 0x2C

  type Counts = c: seq<nat> | |c| == 64 witness seq(64, i => 0)

  /** How wide an index into a heap is: one flag bit a heap. */
  datatype Widths = Widths(str: nat, guid: nat, blob: nat)

  function Bit(x: nat, k: nat): bool { x / Pow2(k) % 2 == 1 }

  function WidthsOf(heapSizes: Byte): Widths {
    Widths(if Bit(heapSizes, 0) then 4 else 2, if Bit(heapSizes, 1) then 4 else 2, if Bit(heapSizes, 2) then 4 else 2)
  }

  function Le64(b: seq<Byte>): nat
    requires |b| == 8
  {
    Le32(b[..4]) + TOP * Le32(b[4..])
  }

  /** The width of an index into one table. */
  function Simple(counts: Counts, t: nat): (w: nat)
    requires t < 64
    ensures w in {2, 4}
  {
    if counts[t] > 0xFFFF then 4 else 2
  }

  function MostRows(counts: Counts, tables: seq<nat>): nat
    requires forall i :: 0 <= i < |tables| ==> tables[i] < 64
  {
    if tables == [] then 0
    else
      var rest := MostRows(counts, tables[1..]);
      if counts[tables[0]] > rest then counts[tables[0]] else rest
  }

  /** The width of an index that says in its low bits which of several tables it is into. */
  function Coded(counts: Counts, tagBits: nat, tables: seq<nat>): (w: nat)
    requires tagBits <= 16 && forall i :: 0 <= i < |tables| ==> tables[i] < 64
    ensures w in {2, 4}
  {
    if MostRows(counts, tables) >= Pow2(16 - tagBits) then 4 else 2
  }

  function TypeDefOrRef(c: Counts): nat { Coded(c, 2, [TYPE_DEF, TYPE_REF, TYPE_SPEC]) }
  function MemberRefParent(c: Counts): nat { Coded(c, 3, [TYPE_DEF, TYPE_REF, MODULE_REF, METHOD_DEF, TYPE_SPEC]) }
  function ResolutionScope(c: Counts): nat { Coded(c, 2, [MODULE, MODULE_REF, ASSEMBLY_REF, TYPE_REF]) }
  function MethodDefOrRef(c: Counts): nat { Coded(c, 1, [METHOD_DEF, MEMBER_REF]) }
  function Implementation(c: Counts): nat { Coded(c, 2, [FILE, ASSEMBLY_REF, EXPORTED_TYPE]) }

  function HasCustomAttribute(c: Counts): nat {
    Coded(c, 5, [METHOD_DEF, FIELD, TYPE_REF, TYPE_DEF, PARAM, INTERFACE_IMPL, MEMBER_REF, MODULE, DECL_SECURITY,
      PROPERTY, EVENT,
                 STAND_ALONE_SIG, MODULE_REF, TYPE_SPEC, ASSEMBLY, ASSEMBLY_REF, FILE, EXPORTED_TYPE, MANIFEST_RESOURCE,
                 GENERIC_PARAM, GENERIC_PARAM_CONSTRAINT, METHOD_SPEC])
  }

  /** The size of a row, 0 for a table that is not known. */
  function RowSize(w: Widths, c: Counts, t: nat): nat {
    match t
    case 0x00 => 2 + w.str + w.guid + w.guid + w.guid
    case 0x01 => ResolutionScope(c) + w.str + w.str
    case 0x02 => 4 + w.str + w.str + TypeDefOrRef(c) + Simple(c, FIELD) + Simple(c, METHOD_DEF)
    case 0x03 => Simple(c, FIELD)
    case 0x04 => 2 + w.str + w.blob
    case 0x05 => Simple(c, METHOD_DEF)
    case 0x06 => 4 + 2 + 2 + w.str + w.blob + Simple(c, PARAM)
    case 0x07 => Simple(c, PARAM)
    case 0x08 => 2 + 2 + w.str
    case 0x09 => Simple(c, TYPE_DEF) + TypeDefOrRef(c)
    case 0x0A => MemberRefParent(c) + w.str + w.blob
    case 0x0B => 2 + Coded(c, 2, [FIELD, PARAM, PROPERTY]) + w.blob
    case 0x0C => HasCustomAttribute(c) + Coded(c, 3, [METHOD_DEF, MEMBER_REF]) + w.blob
    case 0x0D => Coded(c, 1, [FIELD, PARAM]) + w.blob
    case 0x0E => 2 + Coded(c, 2, [TYPE_DEF, METHOD_DEF, ASSEMBLY]) + w.blob
    case 0x0F => 2 + 4 + Simple(c, TYPE_DEF)
    case 0x10 => 4 + Simple(c, FIELD)
    case 0x11 => w.blob
    case 0x12 => Simple(c, TYPE_DEF) + Simple(c, EVENT)
    case 0x13 => Simple(c, EVENT)
    case 0x14 => 2 + w.str + TypeDefOrRef(c)
    case 0x15 => Simple(c, TYPE_DEF) + Simple(c, PROPERTY)
    case 0x16 => Simple(c, PROPERTY)
    case 0x17 => 2 + w.str + w.blob
    case 0x18 => 2 + Simple(c, METHOD_DEF) + Coded(c, 1, [EVENT, PROPERTY])
    case 0x19 => Simple(c, TYPE_DEF) + MethodDefOrRef(c) + MethodDefOrRef(c)
    case 0x1A => w.str
    case 0x1B => w.blob
    case 0x1C => 2 + Coded(c, 1, [FIELD, METHOD_DEF]) + w.str + Simple(c, MODULE_REF)
    case 0x1D => 4 + Simple(c, FIELD)
    case 0x1E => 4 + 4
    case 0x1F => 4
    case 0x20 => 4 + 2 + 2 + 2 + 2 + 4 + w.blob + w.str + w.str
    case 0x21 => 4
    case 0x22 => 4 + 4 + 4
    case 0x23 => 2 + 2 + 2 + 2 + 4 + w.blob + w.str + w.str + w.blob
    case 0x24 => 4 + Simple(c, ASSEMBLY_REF)
    case 0x25 => 4 + 4 + 4 + Simple(c, ASSEMBLY_REF)
    case 0x26 => 4 + w.str + w.blob
    case 0x27 => 4 + 4 + w.str + w.str + Implementation(c)
    case 0x28 => 4 + 4 + w.str + Implementation(c)
    case 0x29 => Simple(c, TYPE_DEF) + Simple(c, TYPE_DEF)
    case 0x2A => 2 + 2 + Coded(c, 1, [TYPE_DEF, METHOD_DEF]) + w.str
    case 0x2B => MethodDefOrRef(c) + w.blob
    case 0x2C => Simple(c, GENERIC_PARAM) + TypeDefOrRef(c)
    case _ => 0
  }

  // ---- parsing ----

  datatype Counted = Counted(counts: seq<nat>, pos: nat) | CountsCut

  function Present(data: seq<Byte>, t: nat): bool
    requires |data| >= 24
  {
    Bit(Le64(data[8..16]), t)
  }

  /** The row counts of the tables below t, and where the next would be. */
  function CountsTo(data: seq<Byte>, t: nat): (r: Counted)
    requires |data| >= 24
    ensures r.Counted? ==> |r.counts| == t && 24 <= r.pos <= |data| && forall i :: 0 <= i < t && !Present(data, i) ==>
      r.counts[i] == 0
  {
    if t == 0 then Counted([], 24) else
    var r := CountsTo(data, t - 1);
    if r.CountsCut? then CountsCut
    else if !Present(data, t - 1) then Counted(r.counts + [0], r.pos)
    else if r.pos + 4 > |data| then CountsCut
    else Counted(r.counts + [Le32(data[r.pos..r.pos + 4]) as nat], r.pos + 4)
  }

  datatype Laid = Laid(sz: seq<nat>, off: seq<nat>, pos: nat) | TooLong(table: nat) | Unknown(table: nat)

  /** Row sizes and offsets of the tables below t, from position start on. */
  function LaidTo(data: seq<Byte>, counts: Counts, start: nat, t: nat): (r: Laid)
    requires |data| >= 24 && t <= 64
    ensures r.Laid? ==> |r.sz| == t && |r.off| == t
  {
    if t == 0 then Laid([], [], start) else
    var r := LaidTo(data, counts, start, t - 1);
    if !r.Laid? then r
    else if !Present(data, t - 1) then Laid(r.sz + [0], r.off + [0], r.pos) else
    hide RowSize, Present, WidthsOf;
    var rs := RowSize(WidthsOf(data[6]), counts, t - 1);
    RowNat(rs, counts[t - 1]);
    if rs <= 0 then
      if counts[t - 1] > 0 then Unknown(t - 1) else Laid(r.sz + [0], r.off + [0], r.pos)
    else if r.pos + rs * counts[t - 1] > |data| then TooLong(t - 1)
    else Laid(r.sz + [rs], r.off + [r.pos], r.pos + rs * counts[t - 1])
  }

  datatype Heap = Heap(data: seq<Byte>, counts: Counts, sz: seq<nat>, off: seq<nat>)

  datatype Parsed = Ok(h: Heap) | TooSmall | Truncated | BadTable(table: nat)

  function Parse(data: seq<Byte>): Parsed {
    if |data| < 24 then TooSmall else
    var c := CountsTo(data, 64);
    if c.CountsCut? then Truncated else
    match LaidTo(data, c.counts, c.pos, 64)
    case Laid(sz, off, _) => Ok(Heap(data, c.counts, sz, off))
    case TooLong(t) => BadTable(t)
    case Unknown(t) => BadTable(t)
  }

  // ---- rows ----

  datatype Row = Row(bytes: seq<Byte>) | NoRow

  function RowStart(h: Heap, t: nat, rid: nat): int
    requires t < |h.off| && t < |h.sz|
  {
    h.off[t] + (rid - 1) * h.sz[t]
  }

  /** The row with a number, counted from 1. */
  function RowOf(h: Heap, t: nat, rid: nat): Row
    requires t < 64 && |h.sz| == 64 && |h.off| == 64
  {
    if rid == 0 || rid > h.counts[t] then NoRow else
    RowNat(rid - 1, h.sz[t]);
    if RowStart(h, t, rid) + h.sz[t] > |h.data| then NoRow
    else Row(h.data[RowStart(h, t, rid)..RowStart(h, t, rid) + h.sz[t]])
  }

  lemma RowNat(a: nat, b: nat)
    ensures a * b >= 0
  {
  }

  /** Where table i ends, when it has rows. */
  function End(sz: seq<nat>, off: seq<nat>, counts: Counts, i: nat): int
    requires i < |sz| && i < |off| && i < 64
  {
    off[i] + sz[i] * counts[i]
  }

  ghost predicate Ordered(r: Laid, counts: Counts, start: nat, t: nat)
    requires r.Laid? && |r.sz| == t && |r.off| == t && t <= 64
  {
    && start <= r.pos
    && (forall i :: 0 <= i < t ==>
      (r.sz[i] == 0 ==> counts[i] == 0)
      && (r.sz[i] > 0 ==> start <= r.off[i] && End(r.sz, r.off, counts, i) <= r.pos))
    && forall i, j :: 0 <= i < j < t && r.sz[i] > 0 && r.sz[j] > 0 ==> End(r.sz, r.off, counts, i) <= r.off[j]
  }

  lemma {:induction false} LaidOrdered(data: seq<Byte>, counts: Counts, start: nat, t: nat)
    requires |data| >= 24 && t <= 64 && LaidTo(data, counts, start, t).Laid? && start <= |data|
    requires forall i :: 0 <= i < 64 && !Present(data, i) ==> counts[i] == 0
    ensures Ordered(LaidTo(data, counts, start, t), counts, start, t) && LaidTo(data, counts, start, t).pos <= |data|
    ensures forall i :: 0 <= i < t && LaidTo(data, counts, start, t).sz[i] > 0 ==>
      LaidTo(data, counts, start, t).sz[i] == RowSize(WidthsOf(data[6]), counts, i)
  {
    hide RowSize, Present, WidthsOf;
    if t > 0 {
      LaidOrdered(data, counts, start, t - 1);
      var q, r := LaidTo(data, counts, start, t - 1), LaidTo(data, counts, start, t);
      RowNat(r.sz[t - 1], counts[t - 1]);
      forall i | 0 <= i < t - 1
        ensures r.sz[i] == q.sz[i] && r.off[i] == q.off[i] && End(r.sz, r.off, counts, i) == End(q.sz, q.off, counts, i)
      {
      }
    }
  }

  lemma {:induction false} MulLess(a: int, b: int, c: nat)
    requires a <= b
    ensures a * c <= b * c
  {
  }

  /**
   After a parse that succeeds every row of every table lies inside the data, behind the header and the row counts,
   and no two rows overlap.
   */
  lemma RowsApart(data: seq<Byte>, t: nat, rid: nat, u: nat, sid: nat)
    requires Parse(data).Ok? && t < 64 && u < 64 && (t != u || rid != sid)
    requires var h := Parse(data).h; 1 <= rid <= h.counts[t] && 1 <= sid <= h.counts[u]
    ensures var h := Parse(data).h;
      && 24 <= RowStart(h, t, rid) && RowStart(h, t, rid) + h.sz[t] <= |data|
      && (RowStart(h, t, rid) + h.sz[t] <= RowStart(h, u, sid) || RowStart(h, u, sid) + h.sz[u] <= RowStart(h, t, rid))
  {
    hide LaidTo, CountsTo, Ordered, RowSize, Present;
    var h := Parse(data).h;
    RowInside(data, t, rid);
    RowInside(data, u, sid);
    if t == u {
      if rid < sid {
        MulLess(rid, sid - 1, h.sz[t]);
        assert (rid - 1) * h.sz[t] + h.sz[t] == rid * h.sz[t];
      } else {
        MulLess(sid, rid - 1, h.sz[t]);
        assert (sid - 1) * h.sz[t] + h.sz[t] == sid * h.sz[t];
      }
    } else if t < u {
      TablesApart(data, t, u);
    } else {
      TablesApart(data, u, t);
    }
  }

  lemma TablesApart(data: seq<Byte>, t: nat, u: nat)
    requires Parse(data).Ok? && t < u < 64 && Parse(data).h.counts[t] > 0 && Parse(data).h.counts[u] > 0
    ensures var h := Parse(data).h; End(h.sz, h.off, h.counts, t) <= h.off[u]
  {
    hide LaidTo, CountsTo, RowSize, Present;
    var c := CountsTo(data, 64);
    LaidOrdered(data, c.counts, c.pos, 64);
  }

  lemma RowInside(data: seq<Byte>, t: nat, rid: nat)
    requires Parse(data).Ok? && t < 64
    requires 1 <= rid <= Parse(data).h.counts[t]
    ensures var h := Parse(data).h;
      && 24 <= h.off[t] <= RowStart(h, t, rid)
        && RowStart(h, t, rid) + h.sz[t] <= End(h.sz, h.off, h.counts, t) <= |data|
      && h.sz[t] == RowSize(WidthsOf(data[6]), h.counts, t)
      && RowOf(h, t, rid) == Row(data[RowStart(h, t, rid)..RowStart(h, t, rid) + h.sz[t]])
  {
    hide LaidTo, CountsTo, RowSize, Present;
    var h := Parse(data).h;
    var c := CountsTo(data, 64);
    LaidOrdered(data, c.counts, c.pos, 64);
    MulLess(0, rid - 1, h.sz[t]);
    MulLess(rid, h.counts[t], h.sz[t]);
    assert (rid - 1) * h.sz[t] + h.sz[t] == rid * h.sz[t];
    assert h.counts[t] * h.sz[t] == h.sz[t] * h.counts[t];
  }

  // ---- typed accessors: every read is inside the row ----

  function ReadIndex(row: seq<Byte>, off: nat, size: nat): Word
    requires size in {2, 4} && off + size <= |row|
  {
    if size == 4 then Le32(row[off..off + 4]) else row[off] as int + 0x100 * row[off + 1] as int
  }

  datatype TypeDef = TypeDef(flags: nat, name: nat, namespace: nat, extends_: Word, fieldList: Word, methodList: Word)

  function ReadTypeDef(w: Widths, c: Counts, row: seq<Byte>): TypeDef
    requires w.str in {2, 4} && |row| == RowSize(w, c, TYPE_DEF)
  {
    var e := 4 + w.str + w.str;
    var f := e + TypeDefOrRef(c);
    var m := f + Simple(c, FIELD);
    TypeDef(Le32(row[0..4]), ReadIndex(row, 4, w.str), ReadIndex(row, 4 + w.str, w.str),
      ReadIndex(row, e, TypeDefOrRef(c)),
            ReadIndex(row, f, Simple(c, FIELD)), ReadIndex(row, m, Simple(c, METHOD_DEF)))
  }

  datatype MethodDef = MethodDef(rva: nat, implFlags: nat, flags: nat, name: nat, signature: nat, paramList: nat)

  function ReadMethodDef(w: Widths, c: Counts, row: seq<Byte>): MethodDef
    requires w.str in {2, 4} && w.blob in {2, 4} && |row| == RowSize(w, c, METHOD_DEF)
  {
    MethodDef(Le32(row[0..4]), ReadIndex(row, 4, 2), ReadIndex(row, 6, 2), ReadIndex(row, 8, w.str),
              ReadIndex(row, 8 + w.str, w.blob), ReadIndex(row, 8 + w.str + w.blob, Simple(c, PARAM)))
  }

  datatype TypeRef = TypeRef(scope: nat, name: nat, namespace: nat)

  function ReadTypeRef(w: Widths, c: Counts, row: seq<Byte>): TypeRef
    requires w.str in {2, 4} && |row| == RowSize(w, c, TYPE_REF)
  {
    var n := ResolutionScope(c);
    TypeRef(ReadIndex(row, 0, n), ReadIndex(row, n, w.str), ReadIndex(row, n + w.str, w.str))
  }

  datatype MemberRef = MemberRef(cls: nat, name: nat, signature: nat)

  function ReadMemberRef(w: Widths, c: Counts, row: seq<Byte>): MemberRef
    requires w.str in {2, 4} && w.blob in {2, 4} && |row| == RowSize(w, c, MEMBER_REF)
  {
    var n := MemberRefParent(c);
    MemberRef(ReadIndex(row, 0, n), ReadIndex(row, n, w.str), ReadIndex(row, n + w.str, w.blob))
  }

  datatype Field = Field(flags: nat, name: nat, signature: nat)

  function ReadField(w: Widths, c: Counts, row: seq<Byte>): Field
    requires w.str in {2, 4} && w.blob in {2, 4} && |row| == RowSize(w, c, FIELD)
  {
    Field(ReadIndex(row, 0, 2), ReadIndex(row, 2, w.str), ReadIndex(row, 2 + w.str, w.blob))
  }

  datatype Assembly = Assembly(version: seq<nat>, flags: nat, name: nat, culture: nat)

  function ReadAssembly(w: Widths, c: Counts, row: seq<Byte>): Assembly
    requires w.str in {2, 4} && w.blob in {2, 4} && |row| == RowSize(w, c, ASSEMBLY)
  {
    Assembly([ReadIndex(row, 4, 2), ReadIndex(row, 6, 2), ReadIndex(row, 8, 2), ReadIndex(row, 10, 2)],
      Le32(row[12..16]),
             ReadIndex(row, 16 + w.blob, w.str), ReadIndex(row, 16 + w.blob + w.str, w.str))
  }

  /** The name of a module row is inside it as well. */
  function ReadModuleName(w: Widths, c: Counts, row: seq<Byte>): nat
    requires w.str in {2, 4} && |row| == RowSize(w, c, MODULE)
  {
    ReadIndex(row, 2, w.str)
  }

  // ---- and together they read all of it ----

  /** The bytes of an index. */
  function Index(v: int, size: nat): seq<Byte>
    requires size in {2, 4}
  {
    Bytes4(v)[..size]
  }

  lemma IndexBack(row: seq<Byte>, off: nat, size: nat)
    requires size in {2, 4} && off + size <= |row|
    ensures Index(ReadIndex(row, off, size), size) == row[off..off + size]
  {
    if size == 4 {
      LeBytes4(row[off..off + 4]);
    } else {
      var x, y := row[off], row[off + 1];
      LeBytes4([x, y, 0, 0]);
      assert Le32([x, y, 0, 0]) == ReadIndex(row, off, 2);
      assert Index(ReadIndex(row, off, 2), 2) == [x, y];
    }
  }

  /** Neighbouring stretches of a row make one. */
  lemma Joins(row: seq<Byte>, a: nat, b: nat, c: nat)
    requires a <= b <= c <= |row|
    ensures row[a..b] + row[b..c] == row[a..c]
  {
  }

  function WriteTypeDef(w: Widths, c: Counts, r: TypeDef): seq<Byte>
    requires w.str in {2, 4}
  {
    Bytes4(r.flags) + Index(r.name, w.str) + Index(r.namespace, w.str) + Index(r.extends_, TypeDefOrRef(c)) +
    Index(r.fieldList, Simple(c, FIELD)) + Index(r.methodList, Simple(c, METHOD_DEF))
  }

  lemma TypeDefWhole(w: Widths, c: Counts, row: seq<Byte>)
    requires w.str in {2, 4} && |row| == RowSize(w, c, TYPE_DEF)
    ensures WriteTypeDef(w, c, ReadTypeDef(w, c, row)) == row
  {
    hide Index, ReadIndex, Bytes4, Simple, Coded;
    var n := 4 + w.str;
    var e := n + w.str;
    var f := e + TypeDefOrRef(c);
    var m := f + Simple(c, FIELD);
    LeBytes4(row[0..4]);
    IndexBack(row, 4, w.str);
    IndexBack(row, n, w.str);
    IndexBack(row, e, TypeDefOrRef(c));
    IndexBack(row, f, Simple(c, FIELD));
    IndexBack(row, m, Simple(c, METHOD_DEF));
    Joins(row, 0, 4, n);
    Joins(row, 0, n, e);
    Joins(row, 0, e, f);
    Joins(row, 0, f, m);
    Joins(row, 0, m, |row|);
  }

  function WriteMethodDef(w: Widths, c: Counts, r: MethodDef): seq<Byte>
    requires w.str in {2, 4} && w.blob in {2, 4}
  {
    Bytes4(r.rva) + Index(r.implFlags, 2) + Index(r.flags, 2) + Index(r.name, w.str) + Index(r.signature, w.blob) +
    Index(r.paramList, Simple(c, PARAM))
  }

  lemma MethodDefWhole(w: Widths, c: Counts, row: seq<Byte>)
    requires w.str in {2, 4} && w.blob in {2, 4} && |row| == RowSize(w, c, METHOD_DEF)
    ensures WriteMethodDef(w, c, ReadMethodDef(w, c, row)) == row
  {
    hide Index, ReadIndex, Bytes4, Simple;
    var g := 8 + w.str;
    var p := g + w.blob;
    LeBytes4(row[0..4]);
    IndexBack(row, 4, 2);
    IndexBack(row, 6, 2);
    IndexBack(row, 8, w.str);
    IndexBack(row, g, w.blob);
    IndexBack(row, p, Simple(c, PARAM));
    Joins(row, 0, 4, 6);
    Joins(row, 0, 6, 8);
    Joins(row, 0, 8, g);
    Joins(row, 0, g, p);
    Joins(row, 0, p, |row|);
  }

  function WriteTypeRef(w: Widths, c: Counts, r: TypeRef): seq<Byte>
    requires w.str in {2, 4}
  {
    Index(r.scope, ResolutionScope(c)) + Index(r.name, w.str) + Index(r.namespace, w.str)
  }

  lemma TypeRefWhole(w: Widths, c: Counts, row: seq<Byte>)
    requires w.str in {2, 4} && |row| == RowSize(w, c, TYPE_REF)
    ensures WriteTypeRef(w, c, ReadTypeRef(w, c, row)) == row
  {
    hide Index, ReadIndex, Coded;
    var n := ResolutionScope(c);
    IndexBack(row, 0, n);
    IndexBack(row, n, w.str);
    IndexBack(row, n + w.str, w.str);
    Joins(row, 0, n, n + w.str);
    Joins(row, 0, n + w.str, |row|);
  }

  function WriteMemberRef(w: Widths, c: Counts, r: MemberRef): seq<Byte>
    requires w.str in {2, 4} && w.blob in {2, 4}
  {
    Index(r.cls, MemberRefParent(c)) + Index(r.name, w.str) + Index(r.signature, w.blob)
  }

  lemma MemberRefWhole(w: Widths, c: Counts, row: seq<Byte>)
    requires w.str in {2, 4} && w.blob in {2, 4} && |row| == RowSize(w, c, MEMBER_REF)
    ensures WriteMemberRef(w, c, ReadMemberRef(w, c, row)) == row
  {
    hide Index, ReadIndex, Coded;
    var n := MemberRefParent(c);
    IndexBack(row, 0, n);
    IndexBack(row, n, w.str);
    IndexBack(row, n + w.str, w.blob);
    Joins(row, 0, n, n + w.str);
    Joins(row, 0, n + w.str, |row|);
  }

  function WriteField(w: Widths, r: Field): seq<Byte>
    requires w.str in {2, 4} && w.blob in {2, 4}
  {
    Index(r.flags, 2) + Index(r.name, w.str) + Index(r.signature, w.blob)
  }

  lemma FieldWhole(w: Widths, c: Counts, row: seq<Byte>)
    requires w.str in {2, 4} && w.blob in {2, 4} && |row| == RowSize(w, c, FIELD)
    ensures WriteField(w, ReadField(w, c, row)) == row
  {
    hide Index, ReadIndex;
    IndexBack(row, 0, 2);
    IndexBack(row, 2, w.str);
    IndexBack(row, 2 + w.str, w.blob);
    Joins(row, 0, 2, 2 + w.str);
    Joins(row, 0, 2 + w.str, |row|);
  }

  /** With the hash algorithm and the public key, which the accessor skips. */
  function WriteAssembly(w: Widths, r: Assembly, hash: seq<Byte>, key: seq<Byte>): seq<Byte>
    requires w.str in {2, 4} && |r.version| == 4
  {
    hash + Index(r.version[0], 2) + Index(r.version[1], 2) + Index(r.version[2], 2) + Index(r.version[3], 2)
      + Bytes4(r.flags) +
    key + Index(r.name, w.str) + Index(r.culture, w.str)
  }

  lemma AssemblyWhole(w: Widths, c: Counts, row: seq<Byte>)
    requires w.str in {2, 4} && w.blob in {2, 4} && |row| == RowSize(w, c, ASSEMBLY)
    ensures WriteAssembly(w, ReadAssembly(w, c, row), row[..4], row[16..16 + w.blob]) == row
  {
    hide Index, ReadIndex, Bytes4;
    var n := 16 + w.blob;
    var u := n + w.str;
    IndexBack(row, 4, 2);
    IndexBack(row, 6, 2);
    IndexBack(row, 8, 2);
    IndexBack(row, 10, 2);
    LeBytes4(row[12..16]);
    IndexBack(row, n, w.str);
    IndexBack(row, u, w.str);
    AssemblyParts(row, n, u);
  }

  lemma AssemblyParts(row: seq<Byte>, n: nat, u: nat)
    requires 16 <= n <= u <= |row|
    ensures row[..4] + row[4..6] + row[6..8] + row[8..10] + row[10..12] + row[12..16] + row[16..n] + row[n..u]
      + row[u..|row|] == row
  {
    Joins(row, 0, 4, 6);
    Joins(row, 0, 6, 8);
    Joins(row, 0, 8, 10);
    Joins(row, 0, 10, 12);
    Joins(row, 0, 12, 16);
    Joins(row, 0, 16, n);
    Joins(row, 0, n, u);
    Joins(row, 0, u, |row|);
  }

  // ---- the accessors, by row number ----

  datatype Entry<T> = Entry(v: T) | Absent

  function HeapWidths(data: seq<Byte>): (w: Widths)
    requires Parse(data).Ok?
    ensures w.str in {2, 4} && w.guid in {2, 4} && w.blob in {2, 4}
  {
    WidthsOf(data[6])
  }

  /** The bytes of a row that is there. */
  function Bytes(data: seq<Byte>, t: nat, rid: nat): (row: seq<Byte>)
    requires Parse(data).Ok? && t < 64 && 1 <= rid <= Parse(data).h.counts[t]
    ensures |row| == RowSize(HeapWidths(data), Parse(data).h.counts, t)
  {
    hide Parse, RowOf, RowSize, WidthsOf;
    RowInside(data, t, rid);
    RowOf(Parse(data).h, t, rid).bytes
  }

  predicate Has(data: seq<Byte>, t: nat, rid: nat)
    requires Parse(data).Ok? && t < 64
  {
    1 <= rid <= Parse(data).h.counts[t]
  }

  function GetTypeDef(data: seq<Byte>, rid: nat): Entry<TypeDef>
    requires Parse(data).Ok?
  {
    hide Parse, HeapWidths, RowSize, Bytes;
    if !Has(data, TYPE_DEF, rid) then Absent
    else Entry(ReadTypeDef(HeapWidths(data), Parse(data).h.counts, Bytes(data, TYPE_DEF, rid)))
  }

  function GetMethodDef(data: seq<Byte>, rid: nat): Entry<MethodDef>
    requires Parse(data).Ok?
  {
    hide Parse, HeapWidths, RowSize, Bytes;
    if !Has(data, METHOD_DEF, rid) then Absent
    else Entry(ReadMethodDef(HeapWidths(data), Parse(data).h.counts, Bytes(data, METHOD_DEF, rid)))
  }

  function GetTypeRef(data: seq<Byte>, rid: nat): Entry<TypeRef>
    requires Parse(data).Ok?
  {
    hide Parse, HeapWidths, RowSize, Bytes;
    if !Has(data, TYPE_REF, rid) then Absent
    else Entry(ReadTypeRef(HeapWidths(data), Parse(data).h.counts, Bytes(data, TYPE_REF, rid)))
  }

  function GetMemberRef(data: seq<Byte>, rid: nat): Entry<MemberRef>
    requires Parse(data).Ok?
  {
    hide Parse, HeapWidths, RowSize, Bytes;
    if !Has(data, MEMBER_REF, rid) then Absent
    else Entry(ReadMemberRef(HeapWidths(data), Parse(data).h.counts, Bytes(data, MEMBER_REF, rid)))
  }

  function GetField(data: seq<Byte>, rid: nat): Entry<Field>
    requires Parse(data).Ok?
  {
    hide Parse, HeapWidths, RowSize, Bytes;
    if !Has(data, FIELD, rid) then Absent
    else Entry(ReadField(HeapWidths(data), Parse(data).h.counts, Bytes(data, FIELD, rid)))
  }

  function GetAssembly(data: seq<Byte>): Entry<Assembly>
    requires Parse(data).Ok?
  {
    hide Parse, HeapWidths, RowSize, Bytes;
    if !Has(data, ASSEMBLY, 1) then Absent
    else Entry(ReadAssembly(HeapWidths(data), Parse(data).h.counts, Bytes(data, ASSEMBLY, 1)))
  }

  function GetModule(data: seq<Byte>): Entry<nat>
    requires Parse(data).Ok?
  {
    hide Parse, HeapWidths, RowSize, Bytes;
    if !Has(data, MODULE, 1) then Absent
    else Entry(ReadModuleName(HeapWidths(data), Parse(data).h.counts, Bytes(data, MODULE, 1)))
  }

  /** The stretch of the data that is row rid of table t. */
  function Stretch(data: seq<Byte>, t: nat, rid: nat): seq<Byte>
    requires Parse(data).Ok? && t < 64 && 0 <= RowStart(Parse(data).h, t, rid) <= RowStart(Parse(data).h, t, rid)
      + Parse(data).h.sz[t] <= |data|
  {
    data[RowStart(Parse(data).h, t, rid)..RowStart(Parse(data).h, t, rid) + Parse(data).h.sz[t]]
  }

  lemma BytesAre(data: seq<Byte>, t: nat, rid: nat)
    requires Parse(data).Ok? && t < 64 && Has(data, t, rid)
    ensures 0 <= RowStart(Parse(data).h, t, rid) <= RowStart(Parse(data).h, t, rid) + Parse(data).h.sz[t] <= |data|
    ensures Bytes(data, t, rid) == Stretch(data, t, rid)
      && |Stretch(data, t, rid)| == RowSize(HeapWidths(data), Parse(data).h.counts, t)
  {
    hide Parse, RowOf, RowSize, WidthsOf;
    RowInside(data, t, rid);
  }

  /**
   What the accessors return, written back column by column, is the row of that number in the table of that name, byte
   for byte: they read nothing outside it, nothing twice, and miss nothing.
   */
  lemma AccessorsRead(data: seq<Byte>, rid: nat)
    requires Parse(data).Ok?
    ensures var w, c := HeapWidths(data), Parse(data).h.counts;
      && (if Has(data, TYPE_DEF, rid) then GetTypeDef(data, rid).Entry?
        && WriteTypeDef(w, c, GetTypeDef(data, rid).v) == Bytes(data, TYPE_DEF, rid)
          else GetTypeDef(data, rid) == Absent)
      && (if Has(data, METHOD_DEF, rid) then
            GetMethodDef(data, rid).Entry? && WriteMethodDef(w, c, GetMethodDef(data, rid).v) ==
              Bytes(data, METHOD_DEF, rid)
          else GetMethodDef(data, rid) == Absent)
      && (if Has(data, TYPE_REF, rid) then GetTypeRef(data, rid).Entry?
        && WriteTypeRef(w, c, GetTypeRef(data, rid).v) == Bytes(data, TYPE_REF, rid)
          else GetTypeRef(data, rid) == Absent)
      && (if Has(data, MEMBER_REF, rid) then
            GetMemberRef(data, rid).Entry? && WriteMemberRef(w, c, GetMemberRef(data, rid).v) ==
              Bytes(data, MEMBER_REF, rid)
          else GetMemberRef(data, rid) == Absent)
      && (if Has(data, FIELD, rid) then GetField(data, rid).Entry?
        && WriteField(w, GetField(data, rid).v) == Bytes(data, FIELD, rid)
          else GetField(data, rid) == Absent)
  {
    hide Parse, HeapWidths, RowSize, Bytes, ReadTypeDef, ReadMethodDef, ReadTypeRef, ReadMemberRef, ReadField;
    hide WriteTypeDef, WriteMethodDef, WriteTypeRef, WriteMemberRef, WriteField;
    var w, c := HeapWidths(data), Parse(data).h.counts;
    if Has(data, TYPE_DEF, rid) {
      TypeDefWhole(w, c, Bytes(data, TYPE_DEF, rid));
    }
    if Has(data, METHOD_DEF, rid) {
      MethodDefWhole(w, c, Bytes(data, METHOD_DEF, rid));
    }
    if Has(data, TYPE_REF, rid) {
      TypeRefWhole(w, c, Bytes(data, TYPE_REF, rid));
    }
    if Has(data, MEMBER_REF, rid) {
      MemberRefWhole(w, c, Bytes(data, MEMBER_REF, rid));
    }
    if Has(data, FIELD, rid) {
      FieldWhole(w, c, Bytes(data, FIELD, rid));
    }
  }

  /** The assembly and the module row are read in part: the columns asked for, where they stand. */
  lemma SingleRowsRead(data: seq<Byte>)
    requires Parse(data).Ok?
    ensures var w := HeapWidths(data);
      && (if Has(data, ASSEMBLY, 1) then
            var row := Bytes(data, ASSEMBLY, 1);
            GetAssembly(data).Entry? && |GetAssembly(data).v.version| == 4 && |row| >= 16 + w.blob
            && WriteAssembly(w, GetAssembly(data).v, row[..4], row[16..16 + w.blob]) == row
          else GetAssembly(data) == Absent)
      && (if Has(data, MODULE, 1) then
            var row := Bytes(data, MODULE, 1);
            |row| >= 2 + w.str && GetModule(data).Entry? && Index(GetModule(data).v, w.str) == row[2..2 + w.str]
          else GetModule(data) == Absent)
  {
    hide Parse, HeapWidths, Bytes, Index, ReadIndex, WriteAssembly;
    var w, c := HeapWidths(data), Parse(data).h.counts;
    if Has(data, ASSEMBLY, 1) {
      AssemblyWhole(w, c, Bytes(data, ASSEMBLY, 1));
    }
    if Has(data, MODULE, 1) {
      IndexBack(Bytes(data, MODULE, 1), 2, w.str);
    }
  }

  // ---- methods of types ----

  /** The inclusive range of method numbers of type i, counted from 0; lists are the MethodList columns. */
  function Range(lists: seq<Word>, methods: nat, i: nat): (nat, int)
    requires i < |lists|
  {
    var start := lists[i];
    var end := if i + 1 < |lists| then Sub(lists[i + 1], 1) else methods;
    if start == 0 then (0, 0) else if end < start then (start, start - 1) else (start, end)
  }

  ghost predicate Sorted(lists: seq<Word>) {
    (forall i :: 0 <= i < |lists| ==> lists[i] >= 1) && forall i, j :: 0 <= i <= j < |lists| ==> lists[i] <= lists[j]
  }

  /** The type that declares a method: the last whose list starts at or before it. */
  ghost predicate Declares(lists: seq<Word>, i: nat, rid: nat) {
    i < |lists| && lists[i] <= rid && (i + 1 < |lists| ==> rid < lists[i + 1])
  }

  function Numbers(from: nat, last: int, methods: nat): seq<nat>
    decreases last - from
  {
    if from > last then [] else (if 1 <= from <= methods then [from] else []) + Numbers(from + 1, last, methods)
  }

  datatype Listed = Listed(rid: nat, type_: nat)

  function Tag(rids: seq<nat>, i: nat): (r: seq<Listed>)
    ensures |r| == |rids| && forall k :: 0 <= k < |r| ==> r[k] == Listed(rids[k], i)
  {
    seq(|rids|, k requires 0 <= k < |rids| => Listed(rids[k], i))
  }

  /** The methods of the first n types, in the order Methods("") lists them. */
  function MethodsTo(lists: seq<Word>, methods: nat, n: nat): seq<Listed>
    requires n <= |lists|
  {
    if n == 0 then [] else
    var r := Range(lists, methods, n - 1);
    MethodsTo(lists, methods, n - 1) + if r.0 == 0 then [] else Tag(Numbers(r.0, r.1, methods), n - 1)
  }

  lemma {:induction false} NumbersAre(from: nat, last: int, methods: nat)
    requires from >= 1
    ensures var top := if last < methods then last else methods;
      |Numbers(from, last, methods)| == if from <= top then top - from + 1 else 0
    ensures forall k :: 0 <= k < |Numbers(from, last, methods)| ==> Numbers(from, last, methods)[k] == from + k
    decreases last - from
  {
    if from <= last {
      NumbersAre(from + 1, last, methods);
    }
  }

  lemma {:induction false} MethodsOn(lists: seq<Word>, methods: nat, n: nat)
    requires n <= |lists|
    ensures n == 0 ==> MethodsTo(lists, methods, n) == []
    ensures n > 0 ==>
      var r := Range(lists, methods, n - 1);
      MethodsTo(lists, methods, n) ==
      MethodsTo(lists, methods, n - 1) + if r.0 == 0 then [] else Tag(Numbers(r.0, r.1, methods), n - 1)
  {
    hide Numbers, Range;
  }

  lemma RangeIs(lists: seq<Word>, methods: nat, i: nat)
    requires i < |lists| && Sorted(lists)
    ensures var end := if i + 1 < |lists| then lists[i + 1] - 1 else methods;
      Range(lists, methods, i) == (lists[i], if end < lists[i] then lists[i] - 1 else end)
  {
  }

  /**
   What the first n types contribute: the numbers from the first list up, each once, in order, each with its declaring
   type.
   */
  lemma {:induction false} MethodsToAre(lists: seq<Word>, methods: nat, n: nat)
    requires 0 < n <= |lists| && Sorted(lists)
    ensures var m := MethodsTo(lists, methods, n);
      var next := if n < |lists| then lists[n] else methods + 1;
      var stop := if next > methods + 1 then methods + 1 else next;
      && |m| == (if stop > lists[0] then stop - lists[0] else 0)
      && forall k :: 0 <= k < |m| ==>
        m[k].rid == lists[0] + k && m[k].type_ < n
        && Declares(lists, m[k].type_, m[k].rid)
    decreases n
  {
    hide Numbers, Range, MethodsTo;
    var r := Range(lists, methods, n - 1);
    RangeIs(lists, methods, n - 1);
    NumbersAre(r.0, r.1, methods);
    MethodsOn(lists, methods, n);
    MethodsOn(lists, methods, 0);
    if n > 1 {
      MethodsToAre(lists, methods, n - 1);
    }
  }

  /** Every method from the first list up is listed exactly once, in order, under the type that declares it. */
  lemma MethodsComplete(lists: seq<Word>, methods: nat)
    requires lists != [] && Sorted(lists)
    ensures var m := MethodsTo(lists, methods, |lists|);
      && |m| == (if methods >= lists[0] then methods - lists[0] + 1 else 0)
      && forall k :: 0 <= k < |m| ==> m[k].rid == lists[0] + k && Declares(lists, m[k].type_, m[k].rid)
  {
    MethodsToAre(lists, methods, |lists|);
  }

  function MethodListAt(data: seq<Byte>, rid: nat): Word
    requires Parse(data).Ok? && Has(data, TYPE_DEF, rid)
  {
    hide Parse, ReadTypeDef, Bytes, HeapWidths, RowSize;
    GetTypeDef(data, rid).v.methodList
  }

  /** The MethodList column of the parsed data. */
  function MethodLists(data: seq<Byte>): (lists: seq<Word>)
    requires Parse(data).Ok?
    ensures |lists| == Parse(data).h.counts[TYPE_DEF]
  {
    hide Parse, GetTypeDef, Bytes;
    seq(Parse(data).h.counts[TYPE_DEF], i requires 0 <= i < Parse(data).h.counts[TYPE_DEF] => MethodListAt(data, i + 1))
  }

  /** The number of method rows: a 32-bit word in the data. */
  function MethodRows(data: seq<Byte>): Word
    requires Parse(data).Ok?
  {
    CountsFit(data, 64, METHOD_DEF);
    Parse(data).h.counts[METHOD_DEF]
  }

  lemma {:induction false} CountsFit(data: seq<Byte>, t: nat, i: nat)
    requires |data| >= 24 && CountsTo(data, t).Counted? && i < t
    ensures CountsTo(data, t).counts[i] < TOP
    decreases t
  {
    hide Present, Le32;
    if i < t - 1 {
      CountsFit(data, t - 1, i);
    }
  }

  datatype Found = Found(i: nat) | Nowhere

  /** The first type whose range has the method. */
  function Owner(lists: seq<Word>, methods: nat, rid: nat, i: nat): Found
    requires i <= |lists|
    decreases |lists| - i
  {
    if i == |lists| then Nowhere
    else if Range(lists, methods, i).0 != 0 && Range(lists, methods, i).0 <= rid <= Range(lists, methods, i).1
      then Found(i)
    else Owner(lists, methods, rid, i + 1)
  }

  lemma {:induction false} OwnerFrom(lists: seq<Word>, methods: nat, rid: nat, i: nat, at: nat)
    requires Sorted(lists) && i <= at && Declares(lists, at, rid) && rid <= methods
    ensures Owner(lists, methods, rid, i) == Found(at)
    decreases at - i
  {
    if i < at {
      OwnerFrom(lists, methods, rid, i + 1, at);
    }
  }

  lemma {:induction false} OwnerNone(lists: seq<Word>, methods: nat, rid: nat, i: nat)
    requires Sorted(lists) && i <= |lists| && (lists != [] ==> rid < lists[0])
    ensures Owner(lists, methods, rid, i) == Nowhere
    decreases |lists| - i
  {
    if i < |lists| {
      OwnerNone(lists, methods, rid, i + 1);
    }
  }

  /**
   The name looked up for a method is that of its declaring type, and there is none for a method before the first
   list.
   */
  lemma OwnerExact(lists: seq<Word>, methods: nat, rid: nat, at: nat)
    requires Sorted(lists) && rid <= methods
    ensures Owner(lists, methods, rid, 0) == Found(at) <==> Declares(lists, at, rid)
    ensures Owner(lists, methods, rid, 0) == Nowhere <==> lists == [] || rid < lists[0]
  {
    if lists == [] || rid < lists[0] {
      OwnerNone(lists, methods, rid, 0);
    } else {
      var i := LastStart(lists, rid, |lists|);
      OwnerFrom(lists, methods, rid, 0, i);
      if Declares(lists, at, rid) {
        OwnerFrom(lists, methods, rid, 0, at);
      }
    }
  }

  lemma {:induction false} LastStart(lists: seq<Word>, rid: nat, n: nat) returns (i: nat)
    requires Sorted(lists) && lists != [] && lists[0] <= rid && 0 < n <= |lists| && (n < |lists| ==> rid < lists[n])
    ensures Declares(lists, i, rid)
    decreases n
  {
    if lists[n - 1] <= rid {
      i := n - 1;
    } else {
      i := LastStart(lists, rid, n - 1);
    }
  }

  /**
   Of parsed data whose method lists never decrease: every method row from the first list up is there and listed once,
   under its type.
   */
  lemma DataMethods(data: seq<Byte>)
    requires Parse(data).Ok? && MethodLists(data) != [] && Sorted(MethodLists(data))
    ensures var lists, methods := MethodLists(data), MethodRows(data);
      var m := MethodsTo(lists, methods, |lists|);
      && |m| == (if methods >= lists[0] then methods - lists[0] + 1 else 0)
      && forall k :: 0 <= k < |m| ==>
        && m[k].rid == lists[0] + k && GetMethodDef(data, m[k].rid).Entry? && GetTypeDef(data, m[k].type_ + 1).Entry?
        && Declares(lists, m[k].type_, m[k].rid)
  {
    hide Parse, MethodLists, MethodsTo, Bytes, ReadMethodDef, ReadTypeDef;
    MethodsComplete(MethodLists(data), MethodRows(data));
  }

  /** And the type looked up for a method row is the one that declares it. */
  lemma DataOwner(data: seq<Byte>, rid: nat, at: nat)
    requires Parse(data).Ok? && Sorted(MethodLists(data)) && Has(data, METHOD_DEF, rid)
    ensures var lists, methods := MethodLists(data), MethodRows(data);
      && (Owner(lists, methods, rid, 0) == Found(at) <==> Declares(lists, at, rid))
      && (Owner(lists, methods, rid, 0) == Nowhere <==> lists == [] || rid < lists[0])
  {
    hide Parse, MethodLists, Owner, Declares, Sorted;
    OwnerExact(MethodLists(data), MethodRows(data), rid, at);
  }

  // ---- the 32-bit row counter ----

  /** The counter of the inner loop of Methods, k turns after it was set to start. */
  function Counter(start: Word, k: nat): Word { Add(start, k) }

  /** The loop ends after some number of turns. */
  ghost predicate Stops(start: Word, end: Word) { exists k: nat :: Counter(start, k) > end }

  /** A loop up to the largest word never ends; every other does. */
  lemma StopsExact(start: Word, end: Word)
    ensures Stops(start, end) <==> end != TOP - 1
  {
    if end != TOP - 1 {
      var k := TOP - 1 - start;
      assert Counter(start, k) > end;
    }
  }

  /** Every loop that Methods("") enters ends. */
  ghost predicate AllStop(lists: seq<Word>, methods: Word) {
    forall i :: 0 <= i < |lists| ==> Range(lists, methods, i).0 != 0 ==>
      0 <= Range(lists, methods, i).1 < TOP && Stops(lists[i], Range(lists, methods, i).1)
  }

  /** The last type's range ends at the number of methods. */
  predicate LastFits(lists: seq<Word>, methods: Word) { lists != [] && lists[|lists| - 1] != 0 ==> methods < TOP - 1 }

  predicate NoGap(lists: seq<Word>) { forall i :: 0 < i < |lists| && lists[i - 1] != 0 ==> lists[i] != 0 }

  /**
   Methods("") ends exactly when no list of 0 directly follows another list (and there are fewer than 2^32 - 1
   methods, if the last list is not 0).
   */
  lemma {:induction false} MethodsEnds(lists: seq<Word>, methods: Word)
    ensures AllStop(lists, methods) <==> NoGap(lists) && LastFits(lists, methods)
  {
    hide Stops, Range;
    if AllStop(lists, methods) {
      forall i | 0 < i < |lists| && lists[i - 1] != 0
        ensures lists[i] != 0
      {
        TypeStops(lists, methods, i - 1);
      }
      if lists != [] && lists[|lists| - 1] != 0 {
        TypeStops(lists, methods, |lists| - 1);
      }
    }
    if NoGap(lists) && LastFits(lists, methods) {
      forall i | 0 <= i < |lists| && Range(lists, methods, i).0 != 0
        ensures 0 <= Range(lists, methods, i).1 < TOP && Stops(lists[i], Range(lists, methods, i).1)
      {
        TypeStops(lists, methods, i);
        if i + 1 < |lists| {
          assert lists[i + 1 - 1] != 0;
        }
      }
    }
  }

  /** The loop over one type's methods. */
  lemma TypeStops(lists: seq<Word>, methods: Word, i: nat)
    requires i < |lists|
    ensures Range(lists, methods, i).0 == lists[i] && 0 <= Range(lists, methods, i).1 < TOP
    ensures lists[i] != 0 ==>
      (Stops(lists[i], Range(lists, methods, i).1) <==>
        if i + 1 < |lists| then lists[i + 1] != 0 else methods < TOP - 1)
  {
    hide Stops;
    StopsExact(lists[i], Range(lists, methods, i).1);
  }

  /** One method, two types, the second with a list of 0: listing the first type's methods counts for ever. */
  lemma GapCounts()
    ensures Range([1, 0], 1, 0) == (1, TOP - 1)
    ensures !Stops(1, TOP - 1) && !AllStop([1, 0], 1)
    ensures AllStop([0, 0, 1], 1)
  {
    MethodsEnds([1, 0], 1);
    MethodsEnds([0, 0, 1], 1);
    StopsExact(1, TOP - 1);
    assert [1, 0][1] == 0;
  }
}

/** The loops of tables.go and assembly.go. */
module TablesImpl {
  import opened Word32
  import opened Tables

  method ReadRowCounts(data: seq<Byte>) returns (r: Counted)
    requires |data| >= 24
    ensures r == CountsTo(data, 64)
  {
    hide Present;
    var rowCounts: seq<nat> := [];
    var pos: nat := 24;
    for t := 0 to 64
      invariant CountsTo(data, t) == Counted(rowCounts, pos)
    {
      if Present(data, t) {
        if pos + 4 > |data| {
          CountsStuck(data, t + 1, 64);
          return CountsCut;
        }
        rowCounts := rowCounts + [Le32(data[pos..pos + 4])];
        pos := pos + 4;
      } else {
        rowCounts := rowCounts + [0];
      }
    }
    r := Counted(rowCounts, pos);
  }

  method LayOut(data: seq<Byte>, rowCounts: Counts, start: nat) returns (r: Laid)
    requires |data| >= 24
    ensures r == LaidTo(data, rowCounts, start, 64)
  {
    hide RowSize, Present, WidthsOf, LaidTo;
    var tableSz: seq<nat>, tableOff: seq<nat>, pos: nat := [], [], start;
    LaidNone(data, rowCounts, start);
    for t := 0 to 64
      invariant LaidTo(data, rowCounts, start, t) == Laid(tableSz, tableOff, pos)
    {
      LaidOn(data, rowCounts, start, t);
      var sz: nat, off: nat := 0, 0;
      if Present(data, t) {
        var rs := RowSize(WidthsOf(data[6]), rowCounts, t);
        if rs <= 0 {
          if rowCounts[t] > 0 {
            LaidStuck(data, rowCounts, start, t + 1, 64);
            return Unknown(t);
          }
        } else {
          sz, off := rs, pos;
          RowNat(rs, rowCounts[t]);
          pos := pos + rs * rowCounts[t];
          if pos > |data| {
            LaidStuck(data, rowCounts, start, t + 1, 64);
            return TooLong(t);
          }
        }
      }
      tableSz, tableOff := tableSz + [sz], tableOff + [off];
    }
    r := Laid(tableSz, tableOff, pos);
  }

  lemma LaidNone(data: seq<Byte>, counts: Counts, start: nat)
    requires |data| >= 24
    ensures LaidTo(data, counts, start, 0) == Laid([], [], start)
  {
  }

  lemma {:induction false} LaidOn(data: seq<Byte>, counts: Counts, start: nat, t: nat)
    requires |data| >= 24 && t < 64 && LaidTo(data, counts, start, t).Laid?
    ensures
      var q, rs := LaidTo(data, counts, start, t), RowSize(WidthsOf(data[6]), counts, t);
      LaidTo(data, counts, start, t + 1) ==
      if !Present(data, t) then Laid(q.sz + [0], q.off + [0], q.pos)
      else if rs <= 0 then if counts[t] > 0 then Unknown(t) else Laid(q.sz + [0], q.off + [0], q.pos)
      else if q.pos + rs * counts[t] > |data| then TooLong(t)
      else (RowNat(rs, counts[t]); Laid(q.sz + [rs], q.off + [q.pos], q.pos + rs * counts[t]))
  {
    hide RowSize, Present, WidthsOf;
  }

  method ParseTablesHeap(data: seq<Byte>) returns (r: Parsed)
    ensures r == Parse(data)
  {
    hide CountsTo, LaidTo;
    if |data| < 24 {
      return TooSmall;
    }
    var c := ReadRowCounts(data);
    if c.CountsCut? {
      return Truncated;
    }
    var laid := LayOut(data, c.counts, c.pos);
    match laid
    case Laid(sz, off, _) => r := Ok(Heap(data, c.counts, sz, off));
    case TooLong(t) => r := BadTable(t);
    case Unknown(t) => r := BadTable(t);
  }

  lemma {:induction false} CountsStuck(data: seq<Byte>, t: nat, u: nat)
    requires |data| >= 24 && t <= u && CountsTo(data, t).CountsCut?
    ensures CountsTo(data, u).CountsCut?
  {
    if t < u {
      CountsStuck(data, t, u - 1);
    }
  }

  lemma {:induction false} LaidStuck(data: seq<Byte>, counts: Counts, start: nat, t: nat, u: nat)
    requires |data| >= 24 && t <= u <= 64 && !LaidTo(data, counts, start, t).Laid?
    ensures LaidTo(data, counts, start, u) == LaidTo(data, counts, start, t)
  {
    if t < u {
      LaidStuck(data, counts, start, t, u - 1);
    }
  }

  method MethodRange(lists: seq<Word>, methods: nat, i: nat) returns (start: nat, end: int)
    requires i < |lists|
    ensures (start, end) == Range(lists, methods, i)
  {
    start := lists[i];
    if i + 1 < |lists| {
      end := Sub(lists[i + 1], 1);
    } else {
      end := methods;
    }
    if start == 0 {
      return 0, 0;
    }
    if end < start {
      end := start - 1;
    }
  }

  /** The counter is a 32-bit word; below the largest one it never wraps. */
  method MethodNumbers(start: Word, end: Word, methods: nat) returns (rids: seq<nat>)
    requires Stops(start, end)
    ensures rids == Numbers(start, end, methods)
  {
    hide Stops, Numbers, Add;
    StopsExact(start, end);
    rids := [];
    NumbersEnd(start, end, methods);
    var rid: Word := start;
    while rid <= end
      invariant rids + Numbers(rid, end, methods) == Numbers(start, end, methods)
      decreases end - rid
    {
      NumbersOn(rid, end, methods);
      AddOne(rid);
      assert rids + ([rid] + Numbers(rid + 1, end, methods)) == rids + [rid] + Numbers(rid + 1, end, methods);
      if 1 <= rid <= methods {
        rids := rids + [rid];
      }
      rid := Add(rid, 1);
    }
    NumbersEnd(rid, end, methods);
  }

  lemma AddOne(x: Word)
    requires x < TOP - 1
    ensures Add(x, 1) == x + 1
  {
  }

  lemma NumbersOn(from: nat, last: int, methods: nat)
    requires from <= last
    ensures Numbers(from, last, methods) == (if 1 <= from <= methods then [from] else [])
      + Numbers(from + 1, last, methods)
  {
  }

  lemma NumbersEnd(from: nat, last: int, methods: nat)
    ensures from > last ==> Numbers(from, last, methods) == []
  {
  }

  /** Methods("") on the MethodList column and the number of method rows, where its loops end. */
  method Methods(lists: seq<Word>, methods: Word) returns (out: seq<Listed>)
    requires NoGap(lists) && LastFits(lists, methods)
    ensures out == MethodsTo(lists, methods, |lists|)
  {
    hide Numbers, Range, MethodsTo, Stops, NoGap, LastFits;
    MethodsEnds(lists, methods);
    out := [];
    MethodsOn(lists, methods, 0);
    for i := 0 to |lists|
      invariant out == MethodsTo(lists, methods, i)
    {
      MethodsOn(lists, methods, i + 1);
      var start, end := MethodRange(lists, methods, i);
      if start != 0 {
        TypeStops(lists, methods, i);
        var rids := MethodNumbers(start, end, methods);
        out := out + Tag(rids, i);
      }
    }
  }

  /** Types: the MethodList column, read row by row. */
  method ReadMethodLists(data: seq<Byte>) returns (lists: seq<Word>)
    requires Parse(data).Ok?
    ensures lists == MethodLists(data)
  {
    hide Parse, Bytes, GetTypeDef, MethodListAt;
    lists := [];
    for i := 0 to Parse(data).h.counts[TYPE_DEF]
      invariant lists == MethodLists(data)[..i]
    {
      lists := lists + [MethodListAt(data, i + 1)];
    }
  }

  /** Methods("") on parsed data. */
  method DataMethodList(data: seq<Byte>) returns (out: seq<Listed>)
    requires Parse(data).Ok? && NoGap(MethodLists(data)) && LastFits(MethodLists(data), MethodRows(data))
    ensures out == MethodsTo(MethodLists(data), MethodRows(data), |MethodLists(data)|)
  {
    hide Parse, MethodLists, MethodsTo, MethodRows;
    var lists := ReadMethodLists(data);
    out := Methods(lists, MethodRows(data));
  }

  method TypeForMethod(lists: seq<Word>, methods: nat, methodRID: nat) returns (r: Found)
    ensures r == Owner(lists, methods, methodRID, 0)
  {
    for i := 0 to |lists|
      invariant Owner(lists, methods, methodRID, 0) == Owner(lists, methods, methodRID, i)
    {
      var start, end := MethodRange(lists, methods, i);
      if methodRID >= start && methodRID <= end && start != 0 {
        return Found(i);
      }
    }
    r := Nowhere;
  }
}
