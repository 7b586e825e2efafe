/** Where expansion does not keep the meaning of code: exactly which jumps and handlers land where they should. */
module ObfusEdges {
  import opened Bytecode
  import opened Vm
  import opened Obfus

  /**
   Old target t and new target nt are the same place: the same instruction (or the sled to it), or off the same end.
   */
  predicate Lands(plan: Plan, t: int, nt: int) {
    if t < 0 then nt < 0
    else if t < |plan.at| then nt == plan.at[t] || nt == Entry(plan, t)
    else nt >= Entry(plan, |plan.at|)
  }

  /** A relocated jump lands right exactly when its target was not before the start of the code. */
  lemma JumpExact(src: seq<Instr>, out: seq<Instr>, plan: Plan, i: nat)
    requires IsExpansion(src, out, plan) && i < |src| && IsJump(src[i].op)
    ensures 0 <= plan.at[i] < |out|
    ensures Lands(plan, Target(src[i], i), Target(out[plan.at[i]], plan.at[i])) <==> Target(src[i], i) >= 0
  {
    assert FitsI16(NewOffset(plan, src[i], i)) && out[plan.at[i]] == Relocated(plan, src[i], i);
    SBxOf(src[i].op, src[i].a, NewOffset(plan, src[i], i));
    assert plan.at[|src| - 1] < plan.end;
    hide ToI16;
    hide MakeAsBx;
    hide IsSled;
  }

  // ---- a draw the code can make: one NOP before instruction k, none elsewhere, no junk, one NOP after the end ----

  function OneNop(n: nat, k: nat): Plan { Plan(seq(n, j => if j < k then j else j + 1), n + 2) }

  function WithNop(src: seq<Instr>, k: nat): (out: seq<Instr>)
    requires k < |src|
    ensures |out| == |src| + 2 && out[k].op == NOP && out[|src| + 1].op == NOP
    ensures forall i :: 0 <= i < |src| ==> out[if i < k then i else i + 1] == Relocated(OneNop(|src|, k), src[i], i)
  {
    var nop := MakeABC(NOP, 0, 0, 0);
    seq(|src| + 2, q requires 0 <= q < |src| + 2 =>
      if q == k || q == |src| + 1 then nop
      else if q < k then Relocated(OneNop(|src|, k), src[q], q)
      else Relocated(OneNop(|src|, k), src[q - 1], q - 1))
  }

  lemma NopSled(src: seq<Instr>, k: nat, i: nat)
    requires k < |src| && i < |src|
    ensures var plan := OneNop(|src|, k);
      plan.at[i] == (if i < k then i else i + 1) && Entry(plan, i) == (if i <= k then i else i + 1)
      && IsSled(WithNop(src, k), Entry(plan, i), plan.at[i])
  {
    hide MakeAsBx;
    hide ToI16;
    hide Relocated;
    var plan, out := OneNop(|src|, k), WithNop(src, k);
    assert out[k].op == NOP;
    assert SledVia(out, Entry(plan, i), plan.at[i], plan.at[i]);
  }

  lemma NopFits(src: seq<Instr>, k: nat, i: nat)
    requires k < |src| < 0x7ffe && i < |src|
    ensures FitsI16(NewOffset(OneNop(|src|, k), src[i], i))
  {
    hide ToI16;
    var plan := OneNop(|src|, k);
    var t := NewTarget(plan, Target(src[i], i));
    assert 0 <= t <= |src| + 2 && 0 <= plan.at[i] <= |src|;
  }

  lemma NopExpands(src: seq<Instr>, k: nat)
    requires k < |src| < 0x7ffe
    ensures IsExpansion(src, WithNop(src, k), OneNop(|src|, k))
  {
    hide IsSled;
    hide NewOffset;
    hide Relocated;
    hide WithNop;
    hide Entry;
    hide FitsI16;
    var plan, out := OneNop(|src|, k), WithNop(src, k);
    forall i | 0 <= i < |src|
      ensures IsSled(out, Entry(plan, i), plan.at[i]) && FitsI16(NewOffset(plan, src[i], i))
        && out[plan.at[i]] == Relocated(plan, src[i], i)
    {
      NopSled(src, k, i);
      NopFits(src, k, i);
    }
    assert plan.at[|src| - 1] == |src|;
  }

  /** Every expansion of src finds the handler of the TRY at i where it should be. */
  ghost predicate TryLands(src: seq<Instr>, i: nat)
    requires i < |src|
  {
    forall out, plan :: IsExpansion(src, out, plan) ==>
      |plan.at| == |src| && Lands(plan, Target(src[i], i), Target(src[i], plan.at[i]))
  }

  lemma PlanBounds(src: seq<Instr>, out: seq<Instr>, plan: Plan)
    requires IsExpansion(src, out, plan)
    ensures |plan.at| == |src| && forall i :: 0 <= i < |src| ==> plan.at[i] >= 0
  {
    hide IsSled;
    hide Relocated;
    hide ToI16;
  }

  lemma NearIs(plan: Plan, ins: Instr, i: nat)
    requires i < |plan.at| && plan.at[i] >= 0 && (ins.SBx() == 0 || ins.SBx() == -1)
    ensures Lands(plan, Target(ins, i), Target(ins, plan.at[i]))
  {
    hide ToI16;
  }

  lemma NearLands(src: seq<Instr>, out: seq<Instr>, plan: Plan, i: nat)
    requires IsExpansion(src, out, plan) && i < |src| && (src[i].SBx() == 0 || src[i].SBx() == -1)
    ensures |plan.at| == |src| && Lands(plan, Target(src[i], i), Target(src[i], plan.at[i]))
  {
    hide *;
    PlanBounds(src, out, plan);
    NearIs(plan, src[i], i);
  }

  lemma FarMisses(n: nat, k: nat, ins: Instr, i: nat)
    requires k < n && i < n && 0 <= Target(ins, i) <= n
    requires (ins.SBx() > 0 && k == i + 1) || (ins.SBx() < -1 && k == i)
    ensures !Lands(OneNop(n, k), Target(ins, i), Target(ins, OneNop(n, k).at[i]))
  {
    hide ToI16;
  }

  /** Expansion copies TRY as it is.  For every draw, its handler is found where it should be, exactly when the handler
      is the next instruction or the TRY itself; the compiler's handlers never are. */
  lemma TryExact(src: seq<Instr>, i: nat)
    requires i < |src| < 0x7ffe && src[i].op == TRY && 0 <= Target(src[i], i) <= |src|
    ensures TryLands(src, i) <==> (src[i].SBx() == 0 || src[i].SBx() == -1)
  {
    hide ToI16;
    hide IsExpansion;
    hide Lands;
    var sbx := src[i].SBx();
    if sbx == 0 || sbx == -1 {
      forall out, plan | IsExpansion(src, out, plan)
        ensures |plan.at| == |src| && Lands(plan, Target(src[i], i), Target(src[i], plan.at[i]))
      {
        NearLands(src, out, plan, i);
      }
    } else {
      var k := if sbx > 0 then i + 1 else i;
      NopExpands(src, k);
      FarMisses(|src|, k, src[i], i);
    }
  }
}
