/** What the call filter changes, without its loop: the branches it finds, and nothing else. */
module FilterCalls {
  import opened Word32
  import opened UpxFilter

  /** The one-byte branches of x86 with a 32-bit displacement. */
  const CALL: Byte := 0xE8
  const JUMP: Byte := 0xE9

  /** A branch stands at p: its opcode, room for its operand, and no branch whose operand reaches p. */
  ghost predicate BranchAt(s: seq<Byte>, ops: set<Byte>, p: nat)
    decreases p
  {
    p + 5 <= |s| && s[p] in ops && forall q: nat :: p - 5 < q < p ==> !BranchAt(s, ops, q)
  }

  /** No branch found before i reaches beyond i. */
  ghost predicate Clear(s: seq<Byte>, ops: set<Byte>, i: nat) {
    forall q: nat :: i - 5 < q < i ==> !BranchAt(s, ops, q)
  }

  ghost predicate InOperand(s: seq<Byte>, ops: set<Byte>, j: nat) {
    exists p: nat :: p < j < p + 5 && BranchAt(s, ops, p)
  }

  /** From i on, r is s with the address behind each branch added `sign` times to its operand, modulo 2^32. */
  ghost predicate Moved(s: seq<Byte>, r: seq<Byte>, ops: set<Byte>, sign: int, i: nat) {
    && |r| == |s| - i
    && (forall p: nat :: i <= p && BranchAt(s, ops, p) ==>
      Le32(r[p + 1 - i..p + 5 - i]) == (Le32(s[p + 1..p + 5]) + sign * (p + 5)) % TOP)
    && (forall j: nat :: i <= j < |s| && !InOperand(s, ops, j) ==> r[j - i] == s[j])
  }

  function Ops(e9: bool): set<Byte> { if e9 then {CALL, JUMP} else {CALL} }

  lemma MovedPlain(s: seq<Byte>, r: seq<Byte>, ops: set<Byte>, sign: int, i: nat)
    requires i < |s| && Moved(s, r, ops, sign, i + 1) && !BranchAt(s, ops, i)
    ensures Moved(s, [s[i]] + r, ops, sign, i)
  {
    hide BranchAt, Le32, InOperand;
    var t := [s[i]] + r;
    forall p: nat | i <= p && BranchAt(s, ops, p)
      ensures p + 5 <= |s|
      ensures Le32(t[p + 1 - i..p + 5 - i]) == (Le32(s[p + 1..p + 5]) + sign * (p + 5)) % TOP
    {
      Room(s, ops, p);
      assert t[p + 1 - i..p + 5 - i] == r[p + 1 - (i + 1)..p + 5 - (i + 1)];
    }
  }

  lemma Room(s: seq<Byte>, ops: set<Byte>, p: nat)
    requires BranchAt(s, ops, p)
    ensures p + 5 <= |s| && s[p] in ops && Clear(s, ops, p)
  {
  }

  lemma MovedBranch(s: seq<Byte>, b: seq<Byte>, r: seq<Byte>, ops: set<Byte>, sign: int, i: nat)
    requires BranchAt(s, ops, i) && i + 5 <= |s| && Moved(s, r, ops, sign, i + 5)
    requires |b| == 4 && Le32(b) == (Le32(s[i + 1..i + 5]) + sign * (i + 5)) % TOP
    ensures Moved(s, [s[i]] + b + r, ops, sign, i)
  {
    hide BranchAt, Le32;
    var t := [s[i]] + b + r;
    assert t[1..5] == b;
    forall p: nat | i <= p && BranchAt(s, ops, p)
      ensures p + 5 <= |s|
      ensures Le32(t[p + 1 - i..p + 5 - i]) == (Le32(s[p + 1..p + 5]) + sign * (p + 5)) % TOP
    {
      Room(s, ops, p);
      if p > i {
        assert p >= i + 5;
        assert t[p + 1 - i..p + 5 - i] == r[p + 1 - (i + 5)..p + 5 - (i + 5)];
      }
    }
    forall j: nat | i <= j < |s| && !InOperand(s, ops, j)
      ensures t[j - i] == s[j]
    {
      assert j == i || j >= i + 5;
    }
  }

  /** The scan moves exactly the branches: each one found as the first that no earlier one covers. */
  lemma {:induction false} ScanMoves(s: seq<Byte>, e9: bool, i: nat, sign: int)
    requires i <= |s| && Clear(s, Ops(e9), i)
    ensures Moved(s, Scan(s[i..], e9, i, sign), Ops(e9), sign, i)
    decreases |s| - i
  {
    hide Le32, Bytes4, Moved;
    var ops, rest := Ops(e9), s[i..];
    if i + 5 > |s| {
      NoneLeft(s, ops, i, sign);
    } else if s[i] in ops {
      ScanOn(rest, e9, i, sign);
      assert BranchAt(s, ops, i) && rest[1..5] == s[i + 1..i + 5] && rest[5..] == s[i + 5..];
      forall q: nat | i < q < i + 5
        ensures !BranchAt(s, ops, q)
      {
      }
      ScanMoves(s, e9, i + 5, sign);
      var b := Bytes4(Le32(s[i + 1..i + 5]) + sign * (i + 5));
      Bytes4Le(Le32(s[i + 1..i + 5]) + sign * (i + 5));
      MovedBranch(s, b, Scan(s[i + 5..], e9, i + 5, sign), ops, sign, i);
    } else {
      ScanOn(rest, e9, i, sign);
      assert rest[1..] == s[i + 1..];
      ScanMoves(s, e9, i + 1, sign);
      MovedPlain(s, Scan(s[i + 1..], e9, i + 1, sign), ops, sign, i);
    }
  }

  lemma NoneLeft(s: seq<Byte>, ops: set<Byte>, i: nat, sign: int)
    requires i <= |s| < i + 5
    ensures Moved(s, s[i..], ops, sign, i)
  {
    hide Le32;
  }

  /** The opcodes an id of the UPX header stands for: an unknown id counts as a branch filter for a PE image. */
  function OpsOf(filter: Byte, pe: bool): set<Byte> {
    match filter
    case 0x00 | 0x01 => {}
    case 0x0E | 0x46 => {CALL}
    case 0x0F | 0x49 => {CALL, JUMP}
    case 0x16 | 0x17 | 0x18 | 0x19 | 0x1A | 0x1B | 0x1C | 0x1D => {CALL, JUMP}
    case 0x24 | 0x25 | 0x26 | 0x36 => {CALL, JUMP}
    case _ => if pe then {CALL, JUMP} else {}
  }

  /** More than 64 bytes beginning with the letters MZ. */
  predicate MzImage(data: seq<Byte>) { |data| > 64 && data[0] as char == 'M' && data[1] as char == 'Z' }

  /**
   Unfiltering takes from every branch operand the address behind it, and leaves every other byte alone; which branches
   those are depends on the id.
   */
  lemma FilterExact(data: seq<Byte>, filter: Byte)
    ensures Moved(data, Filtered(data, filter, -1), OpsOf(filter, MzImage(data)), -1, 0)
  {
    hide Scan, Moved;
    var m := ModeOf(data, filter);
    if m.Calls? {
      assert data[0..] == data;
      ScanMoves(data, m.e9, 0, -1);
    } else {
      NothingMoved(data, -1);
    }
  }

  lemma NothingMoved(s: seq<Byte>, sign: int)
    ensures Moved(s, s, {}, sign, 0)
  {
    hide Le32;
  }
}
