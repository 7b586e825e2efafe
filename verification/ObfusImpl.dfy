/** The obfuscator as the source writes it, drawing from an arbitrary stream of random bytes. */
module ObfusImpl {
  import opened Bytecode
  import opened Vm
  import opened Obfus

  datatype Expanded = Expanded(proto: Proto) | Overflow

  /** A slot of the new code; orig is the instruction it holds, -1 for an inserted one. */
  datatype Piece = Piece(orig: int, ins: Instr)

  class Random {
    const bytes: nat -> Byte
    var drawn: nat

    constructor (bytes: nat -> Byte)
    {
      this.bytes, drawn := bytes, 0;
    }

    method Next() returns (b: Byte)
      modifies this
    {
      b := bytes(drawn);
      drawn := drawn + 1;
    }
  }

  method JunkInsn(rnd: Random) returns (ins: Instr)
    modifies rnd
    ensures IsJunk(ins)
  {
    hide ToI16;
    var kind := rnd.Next();
    var x := rnd.Next();
    var y := rnd.Next();
    match kind % 5
    case 0 => ins := MakeABC(NOP, 0, 0, 0);
    case 1 => ins := MakeABC(LOADN, x % 4, 0, 0);
    case 2 => ins := MakeABC(LOADB, x % 4, y % 2, 0);
    case 3 => ins := MakeAsBx(LOADI, x % 4, y);
    case _ => ins := MakeABC(MOVE, x % 4, y % 4, 0);
  }

  /** The slots that hold original instructions are those in `at`, in order. */
  predicate Holds(pieces: seq<Piece>, at: seq<int>, src: seq<Instr>) {
    && |at| <= |src|
    && (forall i :: 0 <= i < |at| ==> 0 <= at[i] < |pieces| && pieces[at[i]] == Piece(i, src[i]))
    && (forall q :: 0 <= q < |pieces| ==> pieces[q].orig < |at| && (pieces[q].orig >= 0 ==> at[pieces[q].orig] == q))
  }

  function Insns(pieces: seq<Piece>): seq<Instr> { seq(|pieces|, q requires 0 <= q < |pieces| => pieces[q].ins) }

  /** Every original instruction placed so far is reached from the end of the one before. */
  ghost predicate Sleds(pieces: seq<Piece>, at: seq<int>) {
    && (forall i :: 0 <= i < |at| ==> 0 <= at[i] < |pieces|)
    && (forall i :: 0 <= i < |at| ==> IsSled(Insns(pieces), if i == 0 then 0 else at[i - 1] + 1, at[i]))
  }

  lemma SledStays(a: seq<Instr>, b: seq<Instr>, from: int, to: int)
    requires IsSled(a, from, to) && to < |b| && forall q :: from <= q < to ==> b[q] == a[q]
    ensures IsSled(b, from, to)
  {
    hide MakeAsBx;
    hide ToI16;
    var m :| SledVia(a, from, to, m);
    SledSame(a, b, from, to, m);
  }

  lemma SledSame(a: seq<Instr>, b: seq<Instr>, from: int, to: int, m: int)
    requires SledVia(a, from, to, m) && to < |b| && forall q :: from <= q < to ==> b[q] == a[q]
    ensures SledVia(b, from, to, m)
  {
    hide MakeAsBx;
    hide ToI16;
  }

  /** A slot filled with a NOP, a jump or junk. */
  lemma InsertHolds(pieces: seq<Piece>, at: seq<int>, src: seq<Instr>, ins: Instr)
    requires Holds(pieces, at, src) && Sleds(pieces, at)
    ensures Holds(pieces + [Piece(-1, ins)], at, src) && Sleds(pieces + [Piece(-1, ins)], at)
  {
    var more := pieces + [Piece(-1, ins)];
    forall i | 0 <= i < |at|
      ensures IsSled(Insns(more), if i == 0 then 0 else at[i - 1] + 1, at[i])
    {
      SledStays(Insns(pieces), Insns(more), if i == 0 then 0 else at[i - 1] + 1, at[i]);
    }
    hide IsSled;
  }

  /** An original instruction at the end of its sled. */
  lemma PlaceHolds(pieces: seq<Piece>, at: seq<int>, src: seq<Instr>, m: int)
    requires Holds(pieces, at, src) && Sleds(pieces, at) && |at| < |src|
    requires SledVia(Insns(pieces) + [src[|at|]], if at == [] then 0 else at[|at| - 1] + 1, |pieces|, m)
    ensures Holds(pieces + [Piece(|at|, src[|at|])], at + [|pieces|], src)
      && Sleds(pieces + [Piece(|at|, src[|at|])], at + [|pieces|])
  {
    hide SledVia;
    hide IsSled;
    var more := pieces + [Piece(|at|, src[|at|])];
    var at' := at + [|pieces|];
    assert Insns(more) == Insns(pieces) + [src[|at|]];
    hide Insns;
    SledLast(Insns(more), if at == [] then 0 else at[|at| - 1] + 1, |pieces|, m);
    forall i | 0 <= i < |at'|
      ensures IsSled(Insns(more), if i == 0 then 0 else at'[i - 1] + 1, at'[i])
    {
      if i < |at| {
        SledStays(Insns(pieces), Insns(more), if i == 0 then 0 else at[i - 1] + 1, at[i]);
      }
    }
    PlaceSlots(pieces, at, src);
    hide Holds;
  }

  lemma PlaceSlots(pieces: seq<Piece>, at: seq<int>, src: seq<Instr>)
    requires Holds(pieces, at, src) && |at| < |src|
    ensures Holds(pieces + [Piece(|at|, src[|at|])], at + [|pieces|], src)
  {
  }

  lemma SledLast(out: seq<Instr>, from: int, to: int, m: int)
    requires SledVia(out, from, to, m)
    ensures IsSled(out, from, to)
  {
  }

  /** NOPs, then perhaps a jump over junk, in front of an instruction. */
  method Lead(pieces0: seq<Piece>, nopDensity: nat, junkBlocks: nat, rnd: Random, ghost at: seq<int>,
    ghost src: seq<Instr>)
    returns (pieces: seq<Piece>, ghost m: int)
    requires Holds(pieces0, at, src) && Sleds(pieces0, at)
    modifies rnd
    ensures Holds(pieces, at, src) && Sleds(pieces, at) && pieces0 <= pieces
    ensures forall ins :: SledVia(Insns(pieces) + [ins], |pieces0|, |pieces|, m)
  {
    pieces := pieces0;
    var b := rnd.Next();
    var nd := if nopDensity > 0 then b as int % (nopDensity + 1) else 0;
    for j := 0 to nd
      invariant Holds(pieces, at, src) && Sleds(pieces, at) && pieces0 <= pieces && |pieces| == |pieces0| + j
      invariant forall q :: |pieces0| <= q < |pieces| ==> pieces[q].ins.op == NOP
    {
      InsertHolds(pieces, at, src, MakeABC(NOP, 0, 0, 0));
      pieces := pieces + [Piece(-1, MakeABC(NOP, 0, 0, 0))];
    }
    m := |pieces|;
    var c := rnd.Next();
    if junkBlocks > 0 && c % 4 == 0 {
      var d := rnd.Next();
      var deadN := 1 + d % 4;
      ghost var jump := MakeAsBx(JMP, 0, deadN);
      InsertHolds(pieces, at, src, MakeAsBx(JMP, 0, deadN));
      pieces := pieces + [Piece(-1, MakeAsBx(JMP, 0, deadN))];
      for j := 0 to deadN
        invariant Holds(pieces, at, src) && Sleds(pieces, at) && pieces0 <= pieces && |pieces| == m + 1 + j
        invariant pieces[m].ins == jump
        invariant forall q :: |pieces0| <= q < m ==> pieces[q].ins.op == NOP
      {
        var junk := JunkInsn(rnd);
        InsertHolds(pieces, at, src, junk);
        pieces := pieces + [Piece(-1, junk)];
      }
      assert ToI16(|pieces| - m - 1) == deadN;
    }
    hide ToI16;
    hide MakeAsBx;
  }

  /** Where everything goes, before any jump is rewritten: the pieces and the tail of NOPs. */
  method Place(src: seq<Instr>, nopDensity: nat, junkBlocks: nat, rnd: Random)
    returns (pieces: seq<Piece>, ghost at: seq<int>)
    requires src != []
    modifies rnd
    ensures Holds(pieces, at, src) && Sleds(pieces, at) && |at| == |src| && at[|src| - 1] + 2 <= |pieces|
    ensures forall q :: at[|src| - 1] < q < |pieces| ==> pieces[q].ins.op == NOP
  {
    pieces, at := [], [];
    for i := 0 to |src|
      invariant Holds(pieces, at, src) && Sleds(pieces, at) && |at| == i
      invariant |pieces| == if i == 0 then 0 else at[i - 1] + 1
    {
      ghost var m: int;
      pieces, m := Lead(pieces, nopDensity, junkBlocks, rnd, at, src);
      PlaceHolds(pieces, at, src, m);
      at := at + [|pieces|];
      pieces := pieces + [Piece(i, src[i])];
    }
    var j := 0;
    var more := true;
    while more
      invariant Holds(pieces, at, src) && Sleds(pieces, at) && |at| == |src| && at[|src| - 1] < |pieces| && 0 <= j <= 3
      invariant at[|src| - 1] + 1 + j == |pieces| && (more || j > 0)
      invariant forall q :: at[|src| - 1] < q < |pieces| ==> pieces[q].ins.op == NOP
      decreases 3 - j, more
    {
      var b := rnd.Next();
      more := j < 1 + b % 3;
      if more {
        InsertHolds(pieces, at, src, MakeABC(NOP, 0, 0, 0));
        pieces := pieces + [Piece(-1, MakeABC(NOP, 0, 0, 0))];
        j := j + 1;
      }
    }
  }

  lemma Increasing(pieces: seq<Piece>, at: seq<int>, src: seq<Instr>)
    requires Holds(pieces, at, src) && Sleds(pieces, at)
    ensures forall i, j :: 0 <= i < j < |at| ==> at[i] < at[j]
  {
    forall i, j | 0 <= i < j < |at|
      ensures at[i] < at[j]
    {
      Step(pieces, at, i, j);
    }
  }

  lemma {:induction false} Step(pieces: seq<Piece>, at: seq<int>, i: int, j: int)
    requires Sleds(pieces, at) && 0 <= i < j < |at|
    ensures at[i] < at[j]
    decreases j
  {
    assert IsSled(Insns(pieces), at[j - 1] + 1, at[j]);
    if i < j - 1 {
      Step(pieces, at, i, j - 1);
    }
  }

  /** The finished code agrees with the pieces but where an original jump was rewritten. */
  lemma Finished(src: seq<Instr>, pieces: seq<Piece>, plan: Plan, out: seq<Instr>)
    requires src != [] && Holds(pieces, plan.at, src) && Sleds(pieces, plan.at) && |plan.at| == |src|
      && plan.end == |pieces| <= |out|
    requires plan.at[|src| - 1] + 2 <= plan.end
    requires forall q :: plan.at[|src| - 1] < q < |pieces| ==> pieces[q].ins.op == NOP
    requires forall q :: |pieces| <= q < |out| ==> IsJunk(out[q])
    requires forall q :: 0 <= q < |pieces| && pieces[q].orig < 0 ==> out[q] == pieces[q].ins
    requires forall i :: 0 <= i < |src| ==> out[plan.at[i]] == Relocated(plan, src[i], i)
    requires forall i :: 0 <= i < |src| && IsJump(src[i].op) ==> FitsI16(NewOffset(plan, src[i], i))
    ensures IsExpansion(src, out, plan)
  {
    hide SledVia;
    hide IsSled;
    hide Relocated;
    hide NewOffset;
    hide ToI16;
    hide Holds;
    hide Sleds;
    FinishedSleds(src, pieces, plan, out);
    forall q | plan.at[|src| - 1] < q < |out|
      ensures IsJunk(out[q]) && (q < |pieces| ==> out[q].op == NOP)
    {
      if q < |pieces| {
        TailInserted(src, pieces, plan.at, q);
      }
    }
  }

  lemma FinishedSleds(src: seq<Instr>, pieces: seq<Piece>, plan: Plan, out: seq<Instr>)
    requires src != [] && Holds(pieces, plan.at, src) && Sleds(pieces, plan.at) && |plan.at| == |src|
      && |pieces| <= |out|
    requires forall q :: 0 <= q < |pieces| && pieces[q].orig < 0 ==> out[q] == pieces[q].ins
    ensures forall i :: 0 <= i < |src| ==> 0 <= plan.at[i] < |pieces| && IsSled(out, Entry(plan, i), plan.at[i])
  {
    hide SledVia;
    hide IsSled;
    forall i | 0 <= i < |src|
      ensures IsSled(out, Entry(plan, i), plan.at[i])
    {
      forall q | Entry(plan, i) <= q < plan.at[i]
        ensures out[q] == Insns(pieces)[q]
      {
        NotOriginal(src, pieces, plan, i, q);
      }
      assert Entry(plan, i) == if i == 0 then 0 else plan.at[i - 1] + 1;
      SledStays(Insns(pieces), out, Entry(plan, i), plan.at[i]);
    }
  }

  lemma TailInserted(src: seq<Instr>, pieces: seq<Piece>, at: seq<int>, q: int)
    requires Holds(pieces, at, src) && Sleds(pieces, at) && |at| == |src| > 0 && at[|src| - 1] < q < |pieces|
    ensures pieces[q].orig < 0
  {
    hide IsSled;
    var o := pieces[q].orig;
    if 0 <= o < |src| - 1 {
      Step(pieces, at, o, |src| - 1);
    }
  }

  lemma NotOriginal(src: seq<Instr>, pieces: seq<Piece>, plan: Plan, i: int, q: int)
    requires Holds(pieces, plan.at, src) && Sleds(pieces, plan.at) && 0 <= i < |plan.at|
      && Entry(plan, i) <= q < plan.at[i] && q >= 0
    ensures pieces[q].orig < 0
  {
    hide IsSled;
    var o := pieces[q].orig;
    if 0 <= o < i - 1 {
      Step(pieces, plan.at, o, i - 1);
    } else if o > i {
      Step(pieces, plan.at, i, o);
    }
  }

  /** The code of the pieces, and where each original instruction went. */
  method Lay(pieces: seq<Piece>, n: nat, ghost at: seq<int>, ghost src: seq<Instr>) returns (newCode: array<Instr>,
    oldToNew: array<int>)
    requires Holds(pieces, at, src) && |at| == |src| == n
    ensures fresh(newCode) && fresh(oldToNew) && newCode.Length == |pieces| && oldToNew[..] == at
    ensures forall q :: 0 <= q < |pieces| ==> newCode[q] == pieces[q].ins
  {
    oldToNew := new int[n];
    for i := 0 to n
      invariant forall k :: 0 <= k < i ==> oldToNew[k] == -1
    {
      oldToNew[i] := -1;
    }
    newCode := new Instr[|pieces|](q => MakeABC(NOP, 0, 0, 0));
    for ni := 0 to |pieces|
      invariant forall q :: 0 <= q < ni ==> newCode[q] == pieces[q].ins
      invariant forall k :: 0 <= k < n ==> oldToNew[k] == if at[k] < ni then at[k] else -1
    {
      var pc := pieces[ni];
      if pc.orig >= 0 {
        oldToNew[pc.orig] := ni;
      }
      newCode[ni] := pc.ins;
    }
  }

  lemma RelocatedIs(plan: Plan, ins: Instr, i: nat)
    requires i < |plan.at|
    ensures Relocated(plan, ins, i) ==
      if !IsJump(ins.op) then ins
      else if FitsI16(NewOffset(plan, ins, i)) then MakeAsBx(ins.op, ins.a, NewOffset(plan, ins, i))
        else Relocated(plan, ins, i)
  {
    hide MakeAsBx;
  }

  /** Rewrite the original jumps in place; false when an offset does not fit. */
  method Retarget(src: seq<Instr>, newCode: array<Instr>, oldToNew: array<int>, endIP: nat, ghost pieces: seq<Piece>,
    ghost plan: Plan)
    returns (ok: bool)
    requires Holds(pieces, plan.at, src) && Sleds(pieces, plan.at) && |plan.at| == |src| && plan.end == endIP
    requires newCode.Length == |pieces| && oldToNew[..] == plan.at
    requires forall q :: 0 <= q < |pieces| ==> newCode[q] == pieces[q].ins
    modifies newCode
    ensures ok ==> forall q :: 0 <= q < |pieces| && pieces[q].orig < 0 ==> newCode[q] == pieces[q].ins
    ensures ok ==> forall k :: 0 <= k < |src| ==> newCode[plan.at[k]] == Relocated(plan, src[k], k)
    ensures ok <==> forall k :: 0 <= k < |src| && IsJump(src[k].op) ==> FitsI16(NewOffset(plan, src[k], k))
  {
    hide *;
    Increasing(pieces, plan.at, src);
    HoldsAt(pieces, plan.at, src);
    for oldIP := 0 to |src|
      invariant forall q :: 0 <= q < |pieces| && pieces[q].orig < 0 ==> newCode[q] == pieces[q].ins
      invariant forall k :: 0 <= k < oldIP ==> newCode[plan.at[k]] == Relocated(plan, src[k], k)
      invariant forall k :: 0 <= k < oldIP && IsJump(src[k].op) ==> FitsI16(NewOffset(plan, src[k], k))
    {
      var newIP := oldToNew[oldIP];
      assert newIP == plan.at[oldIP] && pieces[newIP].orig == oldIP;
      var ins := src[oldIP];
      RelocatedIs(plan, ins, oldIP);
      JumpIs(ins.op);
      if ins.op != JMP && ins.op != JT && ins.op != JF {
        newCode[newIP] := ins;
      } else {
        var target := oldIP + 1 + ins.SBx();
        var newTarget := if target < 0 then 0 else if target >= |src| then endIP else oldToNew[target];
        var newSbx := newTarget - newIP - 1;
        OffsetIs(plan, ins, oldIP, newTarget);
        if newSbx < -32768 || newSbx > 32767 {
          return false;
        }
        newCode[newIP] := MakeAsBx(ins.op, ins.a, newSbx);
      }
    }
    return true;
  }

  lemma HoldsAt(pieces: seq<Piece>, at: seq<int>, src: seq<Instr>)
    requires Holds(pieces, at, src)
    ensures forall k :: 0 <= k < |at| ==> 0 <= at[k] < |pieces| && pieces[at[k]].orig == k
  {
  }

  lemma JumpIs(op: Byte)
    ensures IsJump(op) <==> op == JMP || op == JT || op == JF
  {
  }

  lemma OffsetIs(plan: Plan, ins: Instr, i: nat, newTarget: int)
    requires i < |plan.at|
    requires newTarget == (var t := i + 1 + ins.SBx(); if t < 0 then 0 else if t >= |plan.at| then plan.end
      else plan.at[t])
    ensures NewOffset(plan, ins, i) == newTarget - plan.at[i] - 1
    ensures FitsI16(NewOffset(plan, ins, i)) <==> -32768 <= newTarget - plan.at[i] - 1 <= 32767
  {
    hide ToI16;
  }

  method DeadTail(code: seq<Instr>, junkBlocks: nat, rnd: Random) returns (out: seq<Instr>)
    modifies rnd
    ensures code <= out && forall q :: |code| <= q < |out| ==> IsJunk(out[q])
  {
    out := code;
    if junkBlocks > 0 {
      for j := 0 to junkBlocks * 2
        invariant code <= out && forall q :: |code| <= q < |out| ==> IsJunk(out[q])
      {
        var junk := JunkInsn(rnd);
        out := out + [junk];
      }
    }
  }

  method ExpandProto(p: Proto, nopDensity: nat, junkBlocks: nat, rnd: Random) returns (r: Expanded, ghost plan: Plan)
    modifies rnd
    ensures r.Expanded? ==> IsExpansion(p.code, r.proto.code, plan)
    ensures r.Expanded? ==> r.proto == p.(code := r.proto.code, lines := [], numRegs := r.proto.numRegs)
    ensures r.Overflow? ==>
      |plan.at| == |p.code|
      && exists i :: 0 <= i < |p.code| && IsJump(p.code[i].op) && !FitsI16(NewOffset(plan, p.code[i], i))
  {
    hide Relocated;
    hide NewOffset;
    hide Sleds;
    var src := p.code;
    if |src| == 0 {
      plan := Plan([], 0);
      return Expanded(p.(lines := [])), plan;
    }
    var pieces;
    ghost var at;
    pieces, at := Place(src, nopDensity, junkBlocks, rnd);
    plan := Plan(at, |pieces|);
    var newCode, oldToNew := Lay(pieces, |src|, at, src);
    var ok := Retarget(src, newCode, oldToNew, |pieces|, pieces, plan);
    if !ok {
      return Overflow, plan;
    }
    var out := DeadTail(newCode[..], junkBlocks, rnd);
    Agrees(src, pieces, at, newCode[..], out);
    hide IsExpansion;
    hide Holds;
    Finished(src, pieces, plan, out);
    return Expanded(p.(code := out, lines := [], numRegs := if p.numRegs < 8 then 8 else p.numRegs)), plan;
  }

  lemma Agrees(src: seq<Instr>, pieces: seq<Piece>, at: seq<int>, code: seq<Instr>, out: seq<Instr>)
    requires code <= out && |code| == |pieces| && Holds(pieces, at, src)
    ensures forall q :: 0 <= q < |pieces| ==> out[q] == code[q]
    ensures forall i :: 0 <= i < |at| ==> 0 <= at[i] < |pieces| && out[at[i]] == code[at[i]]
  {
  }
}
