/** Instruction words, function prototypes and chunks (internal/bytecode/opcode.go, chunk.go). */
module Bytecode {

  type Byte = x: int | 0 <= x < 0x100
  type U16 = x: int | 0 <= x < 0x1_0000
  type U32 = x: int | 0 <= x < 0x1_0000_0000
  type U64 = x: int | 0 <= x < 0x1_0000_0000_0000_0000
  type I16 = x: int | -0x8000 <= x < 0x8000
  type I64 = x: int | -0x8000_0000_0000_0000 <= x < 0x8000_0000_0000_0000

  /** Go's conversion of an integer to int16: keep the low 16 bits, read them as signed. */
  function ToI16(x: int): (r: I16)
    ensures -0x8000 <= x < 0x8000 ==> r == x
  {
    var u := x % 0x1_0000;
    if u < 0x8000 then u else u - 0x1_0000
  }

  const HALT: Byte := 0
  const MOVE: Byte := 1
  const LOADK: Byte := 2
  const LOADI: Byte := 3
  const LOADN: Byte := 4
  const LOADB: Byte := 5
  const LOADF: Byte := 6
  const ADD: Byte := 7
  const SUB: Byte := 8
  const MUL: Byte := 9
  const DIV: Byte := 10
  const MOD: Byte := 11
  const AND: Byte := 12
  const OR: Byte := 13
  const XOR: Byte := 14
  const SHL: Byte := 15
  const SHR: Byte := 16
  const ROL: Byte := 17
  const ROR: Byte := 18
  const NOT: Byte := 19
  const NEG: Byte := 20
  const LNOT: Byte := 21
  const EQ: Byte := 22
  const NE: Byte := 23
  const LT: Byte := 24
  const LE: Byte := 25
  const GT: Byte := 26
  const GE: Byte := 27
  const JMP: Byte := 28
  const JT: Byte := 29
  const JF: Byte := 30
  const NEWARR: Byte := 31
  const NEWMAP: Byte := 32
  const GETI: Byte := 33
  const SETI: Byte := 34
  const GETK: Byte := 35
  const SETK: Byte := 36
  const LEN: Byte := 37
  const CONCAT: Byte := 38
  const BGET8: Byte := 39
  const BGET16: Byte := 40
  const BGET32: Byte := 41
  const BGET64: Byte := 42
  const BSLICE: Byte := 43
  const BSET8: Byte := 44
  const CALL: Byte := 45
  const RET: Byte := 46
  const RETN: Byte := 47
  const MAKEFN: Byte := 48
  const CLOSURE: Byte := 49
  const GETUPV: Byte := 50
  const SETUPV: Byte := 51
  const NOP: Byte := 52
  const TOSTR: Byte := 53
  const TOINT: Byte := 54
  const TYPEOF: Byte := 55
  const ISNULL: Byte := 56
  const IN: Byte := 57
  const BAND: Byte := 58
  const ARRPUSH: Byte := 59
  const KEYS: Byte := 60
  const ASSERT: Byte := 61
  const FORPREP: Byte := 62
  const FORLOOP: Byte := 63
  const LOADG: Byte := 64
  const STOREG: Byte := 65
  const DUP: Byte := 66
  const SWAP: Byte := 67
  const IMPORT: Byte := 68
  const LIST: Byte := 69
  const TRY: Byte := 70
  const ENDTRY: Byte := 71
  const THROW: Byte := 72

  /** An instruction, read as its four bytes; `Word` is the 32-bit integer the source stores. */
  datatype Instr = Instr(op: Byte, a: Byte, b: Byte, c: Byte) {
    function Bx(): U16 { b + 0x100 * c }

    function SBx(): I16 { ToI16(Bx()) }

    function Word(): U32 { op + 0x100 * a + 0x1_0000 * b + 0x100_0000 * c }
  }

  function MakeABC(op: Byte, a: Byte, b: Byte, c: Byte): Instr { Instr(op, a, b, c) }

  function MakeABx(op: Byte, a: Byte, bx: U16): (i: Instr)
    ensures i.op == op && i.a == a && i.Bx() == bx
  {
    Instr(op, a, bx % 0x100, bx / 0x100)
  }

  function MakeAsBx(op: Byte, a: Byte, sbx: I16): (i: Instr)
    ensures i.op == op && i.a == a
  {
    var u := if sbx < 0 then sbx + 0x1_0000 else sbx;
    Instr(op, a, u % 0x100, u / 0x100)
  }

  /** The signed operand is read back as it was written. */
  lemma SBxOf(op: Byte, a: Byte, sbx: I16)
    ensures MakeAsBx(op, a, sbx).SBx() == sbx
  {
  }

  /** The field getters: shift, then mask. */
  function GetOp(w: U32): Byte { w % 0x100 }
  function GetA(w: U32): Byte { w / 0x100 % 0x100 }
  function GetB(w: U32): Byte { w / 0x1_0000 % 0x100 }
  function GetC(w: U32): Byte { w / 0x100_0000 % 0x100 }
  function FromWord(w: U32): Instr { Instr(GetOp(w), GetA(w), GetB(w), GetC(w)) }

  /**
   Packing is a bijection between four bytes and 32-bit words: no byte is lost, and no two words share their bytes.
   */
  lemma UnpackPack(i: Instr)
    ensures FromWord(i.Word()) == i
  {
    var x := i.Word();
    assert x / 0x100 == i.a + 0x100 * i.b + 0x1_0000 * i.c;
    assert x / 0x1_0000 == i.b + 0x100 * i.c;
    assert x / 0x100_0000 == i.c;
  }

  lemma PackUnpack(w: U32)
    ensures FromWord(w).Word() == w
  {
    var q1 := w / 0x100;
    var q2 := q1 / 0x100;
    var q3 := q2 / 0x100;
    NestedShift(w, 0x100);
    NestedShift(w, 0x1_0000);
    assert w == w % 0x100 + 0x100 * (q1 % 0x100 + 0x100 * (q2 % 0x100 + 0x100 * q3));
  }

  lemma NestedShift(w: U32, d: int)
    requires d == 0x100 || d == 0x1_0000
    ensures w / d / 0x100 == w / (d * 0x100)
  {
    if d == 0x100 {
      assert w / 0x100 / 0x100 == w / 0x1_0000;
    } else {
      assert w / 0x1_0000 / 0x100 == w / 0x100_0000;
    }
  }

  /** Constant pool entries; a float is its 64-bit pattern. */
  datatype Constant =
    | CNull
    | CBool(b: bool)
    | CInt(i: I64)
    | CFloat(bits: U64)
    | CStr(s: seq<Byte>)
    | CBytes(bs: seq<Byte>)

  /** A Go string is a sequence of bytes. */
  type Text = seq<Byte>

  datatype Proto = Proto(name: Text, numRegs: Byte, numParams: Byte, numUpvals: Byte, code: seq<Instr>, lines: seq<U32>)

  datatype Chunk = Chunk(version: U16, consts: seq<Constant>, protos: seq<Proto>, mainIndex: int, sourceName: Text)
}
