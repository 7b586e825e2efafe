/** What the bytecode obfuscator does to a chunk (internal/obfus/obfus.go), for every outcome of its random choices. */
module Obfus {
  import opened Bytecode
  import opened Vm

  // ---- the constant pool ----

  /** to[i] is where constant i of the old pool went. */
  predicate Moves(before: seq<Constant>, after: seq<Constant>, to: seq<int>) {
    && |to| == |before| <= |after|
    && forall i :: 0 <= i < |before| ==> 0 <= to[i] < |after| && after[to[i]] == before[i]
  }

  predicate IsPerm(p: seq<int>) {
    && (forall i :: 0 <= i < |p| ==> 0 <= p[i] < |p|)
    && (forall i, j :: 0 <= i < j < |p| ==> p[i] != p[j])
  }

  /** remapConstInstr: give the constant operand its new index, if it is in the pool and the index fits. */
  function Remap(ins: Instr, to: seq<int>): Instr
    requires forall i :: 0 <= i < |to| ==> 0 <= to[i]
  {
    if ins.op == LOADK || ins.op == LOADF || ins.op == LOADG || ins.op == STOREG || ins.op == IMPORT then
      if ins.Bx() < |to| then MakeABx(ins.op, ins.a, to[ins.Bx()] % 0x1_0000) else ins
    else if ins.op == GETK then
      if ins.c < |to| && to[ins.c] <= 255 then MakeABC(ins.op, ins.a, ins.b, to[ins.c]) else ins
    else if ins.op == SETK || ins.op == ASSERT then
      if ins.b < |to| && to[ins.b] <= 255 then MakeABC(ins.op, ins.a, to[ins.b], ins.c) else ins
    else ins
  }

  /** Would the new index of an 8-bit operand not fit? */
  predicate TooFar(ins: Instr, to: seq<int>) {
    (ins.op == GETK && ins.c < |to| && to[ins.c] > 255)
    || ((ins.op == SETK || ins.op == ASSERT) && ins.b < |to| && to[ins.b] > 255)
  }

  predicate InPool(ins: Instr, n: nat) { UsesConst(ins.op) ==> ConstIndex(ins) < n }

  /** Every constant operand is in the pool. */
  ghost predicate PoolOk(ch: Chunk) {
    forall p, i :: 0 <= p < |ch.protos| && 0 <= i < |ch.protos[p].code| ==> InPool(ch.protos[p].code[i], |ch.consts|)
  }

  // ---- code expansion ----

  /** Where each original instruction went, and where the code ends but for dead junk. */
  datatype Plan = Plan(at: seq<int>, end: int)

  /** The first slot of instruction i's stretch, which ends at at[i]. */
  function Entry(plan: Plan, i: int): int
    requires 0 <= i <= |plan.at|
  {
    if i == 0 then 0 else plan.at[i - 1] + 1
  }

  predicate IsJunk(ins: Instr) {
    ins.op == NOP || ins.op == LOADN || ins.op == LOADB || ins.op == LOADI || ins.op == MOVE
  }

  /** From `from` the code reaches `to` through NOPs and then perhaps a jump over junk. */
  predicate SledVia(out: seq<Instr>, from: int, to: int, m: int) {
    && 0 <= from <= m <= to < |out|
    && (forall q :: from <= q < m ==> out[q].op == NOP)
    && (m == to || out[m] == MakeAsBx(JMP, 0, ToI16(to - m - 1)))
    && to - m - 1 < 0x8000
  }

  ghost predicate IsSled(out: seq<Instr>, from: int, to: int) { exists m :: SledVia(out, from, to, m) }

  /** The target of a jump at i, and where it has gone. */
  function Target(ins: Instr, i: int): int { i + 1 + ins.SBx() }

  function NewTarget(plan: Plan, t: int): int {
    if t < 0 then 0 else if t >= |plan.at| then plan.end else plan.at[t]
  }

  function NewOffset(plan: Plan, ins: Instr, i: int): int
    requires 0 <= i < |plan.at|
  {
    NewTarget(plan, Target(ins, i)) - plan.at[i] - 1
  }

  predicate FitsI16(x: int) { -0x8000 <= x < 0x8000 }

  /** A jump is aimed at its target's new place; every other instruction, TRY among them, is copied. */
  function Relocated(plan: Plan, ins: Instr, i: int): Instr
    requires 0 <= i < |plan.at|
  {
    if IsJump(ins.op) then MakeAsBx(ins.op, ins.a, ToI16(NewOffset(plan, ins, i))) else ins
  }

  /**
   What expandProto makes of src, whatever was drawn: at least one NOP, and perhaps junk, after the last instruction.
   */
  ghost predicate IsExpansion(src: seq<Instr>, out: seq<Instr>, plan: Plan) {
    && |plan.at| == |src|
    && (src == [] ==> out == [])
    && (forall i :: 0 <= i < |src| ==> 0 <= plan.at[i] < plan.end <= |out|)
    && (forall i :: 0 <= i < |src| ==> IsSled(out, Entry(plan, i), plan.at[i]))
    && (forall i :: 0 <= i < |src| ==> out[plan.at[i]] == Relocated(plan, src[i], i))
    && (forall i :: 0 <= i < |src| && IsJump(src[i].op) ==> FitsI16(NewOffset(plan, src[i], i)))
    && (src != [] ==> plan.at[|src| - 1] + 2 <= plan.end)
    && (forall q :: 0 <= q < plan.end <= |out| && src != [] && q > plan.at[|src| - 1] ==> out[q].op == NOP)
    && (forall q :: 0 <= q < |out| && src != [] && q > plan.at[|src| - 1] ==> IsJunk(out[q]))
  }

  /** Code that the expansion keeps the meaning of: no TRY, and no jump to before the start. */
  predicate Movable(src: seq<Instr>) {
    forall i :: 0 <= i < |src| ==> src[i].op != TRY && (IsJump(src[i].op) ==> Target(src[i], i) >= 0)
  }
}

/** Every run of an expanded chunk stutter-simulates the original's. */
module ObfusSim {
  import opened Bytecode
  import opened Vm
  import opened Traces
  import opened Obfus

  /** A chunk, its expansion, and where each instruction went. */
  datatype Pair = Pair(env: Env, src: Chunk, dst: Chunk, plans: seq<Plan>)

  ghost predicate PairOk(X: Pair) {
    && |X.dst.protos| == |X.src.protos| == |X.plans| && X.dst.consts == X.src.consts
      && X.dst.mainIndex == X.src.mainIndex
    && forall i :: 0 <= i < |X.plans| ==>
      && IsExpansion(X.src.protos[i].code, X.dst.protos[i].code, X.plans[i]) && Movable(X.src.protos[i].code)
      && X.dst.protos[i].name == X.src.protos[i].name && X.dst.protos[i].numParams == X.src.protos[i].numParams
  }

  /** The expanded frame stands at the original's next instruction, or at the start of the sled before it; or both have
      run off the end of their code, where only dead junk can have changed the registers. */
  ghost predicate FrameMatch(X: Pair, f: Frame, f': Frame) {
    && f' == f.(ip := f'.ip, regs := f'.regs) && f.tries == []
    && (f.proto < |X.plans| ==>
      var plan := X.plans[f.proto];
      && f.ip >= 0
      && (f.ip < |plan.at| ==> f'.regs == f.regs && (f'.ip == Entry(plan, f.ip) || f'.ip == plan.at[f.ip]))
      && (f.ip >= |plan.at| ==> f'.ip >= Entry(plan, |plan.at|)))
  }

  ghost predicate FramesMatch(X: Pair, fs: seq<Frame>, fs': seq<Frame>) {
    |fs'| == |fs| && forall i :: 0 <= i < |fs| ==> FrameMatch(X, fs[i], fs'[i])
  }

  ghost predicate CallerMatch(X: Pair, c: Caller, c': Caller) {
    c' == c.(frames := c'.frames) && FramesMatch(X, c.frames, c'.frames)
  }

  ghost predicate VMMatch(X: Pair, vm: VM, vm': VM) {
    && vm' == vm.(frames := vm'.frames, callers := vm'.callers)
    && FramesMatch(X, vm.frames, vm'.frames)
    && |vm'.callers| == |vm.callers| && forall i :: 0 <= i < |vm.callers| ==>
      CallerMatch(X, vm.callers[i], vm'.callers[i])
  }

  ghost predicate Match(X: Pair, s: State, s': State) {
    match s
    case Running(vm) => s'.Running? && VMMatch(X, vm, s'.vm)
    case Halted(_, _, _) => s' == s
  }

  // ---- what instructions do to matching machines ----

  lemma NewFrameMatch(X: Pair, proto: nat, ups: Upvals, args: seq<Value>, retReg: nat)
    requires PairOk(X)
    ensures FrameMatch(X, NewFrame(X.src, proto, ups, args, retReg), NewFrame(X.dst, proto, ups, args, retReg))
  {
    if proto < |X.plans| {
      assert X.dst.protos[proto].numParams == X.src.protos[proto].numParams;
    }
    hide IsExpansion;
    hide Movable;
  }

  lemma {:induction false} UnwindMatch(X: Pair, fs: seq<Frame>, msg: Text)
    requires forall i :: 0 <= i < |fs| ==> fs[i].tries == []
    ensures Unwind(fs, msg) == Uncaught
    decreases |fs|
  {
    if fs != [] {
      UnwindMatch(X, fs[..|fs| - 1], msg);
    }
  }

  lemma NoTries(X: Pair, fs: seq<Frame>, fs': seq<Frame>, msg: Text)
    requires FramesMatch(X, fs, fs')
    ensures Unwind(fs, msg) == Unwind(fs', msg) == Uncaught
  {
    UnwindMatch(X, fs, msg);
    assert forall i :: 0 <= i < |fs| ==> fs'[i].tries == [] by {
      forall i | 0 <= i < |fs|
        ensures fs'[i].tries == []
      {
        assert FrameMatch(X, fs[i], fs'[i]);
      }
    }
    UnwindMatch(X, fs', msg);
  }

  lemma PopCaller(X: Pair, vm: VM, vm': VM)
    requires VMMatch(X, vm, vm') && vm.callers != []
    ensures var c, c' := vm.callers[|vm.callers| - 1], vm'.callers[|vm.callers| - 1];
      CallerMatch(X, c, c') &&
      VMMatch(X, vm.(frames := c.frames, callers := vm.callers[..|vm.callers| - 1]),
        vm'.(frames := c'.frames, callers := vm'.callers[..|vm.callers| - 1]))
  {
    hide FrameMatch;
  }

  lemma {:induction false} FinishMatch(X: Pair, vm: VM, vm': VM, out: Outcome)
    requires PairOk(X) && VMMatch(X, vm, vm')
    ensures Match(X, Finish(X.env, X.src, vm, out), Finish(X.env, X.dst, vm', out))
    decreases |vm.callers|, 1
  {
    if vm.callers != [] {
      PopCaller(X, vm, vm');
      var c, c' := vm.callers[|vm.callers| - 1], vm'.callers[|vm.callers| - 1];
      hide VMMatch;
      EnterMatch(X, vm.(frames := c.frames, callers := vm.callers[..|vm.callers| - 1]),
                 vm'.(frames := c'.frames, callers := vm'.callers[..|vm.callers| - 1]), c.id, c.args, c.answers + [out],
                   c.retReg);
    }
  }

  /** Frames that differ from matching ones in their top only. */
  lemma TopMatch(X: Pair, vm: VM, vm': VM, f: Frame, f': Frame)
    requires VMMatch(X, vm, vm') && vm.frames != [] && FrameMatch(X, f, f')
    ensures VMMatch(X, SetTop(vm, f), SetTop(vm', f'))
  {
    hide FrameMatch;
    hide CallerMatch;
  }

  /** Writing one register of matching frames. */
  lemma WriteMatch(X: Pair, f: Frame, f': Frame, r: int, v: Value)
    requires FrameMatch(X, f, f')
    ensures FrameMatch(X, f.(regs := f.regs[r := v]), f'.(regs := f'.regs[r := v]))
  {
  }

  lemma {:induction false} EnterMatch(X: Pair, vm: VM, vm': VM, id: nat, args: seq<Value>, answers: seq<Outcome>,
    retReg: nat)
    requires PairOk(X) && VMMatch(X, vm, vm')
    ensures Match(X, Enter(X.env, X.src, vm, id, args, answers, retReg),
      Enter(X.env, X.dst, vm', id, args, answers, retReg))
    decreases |vm.callers|, 2
  {
    hide PairOk;
    hide FrameMatch;
    hide CallerMatch;
    var e := CallNative(id, args, answers);
    var vm1, vm1' := vm.(trace := vm.trace + [e]), vm'.(trace := vm.trace + [e]);
    assert VMMatch(X, vm1, vm1');
    match X.env.native(vm.trace, e)
    case Return(v) =>
      if vm.frames != [] {
        var f, f' := vm.frames[|vm.frames| - 1], vm'.frames[|vm.frames| - 1];
        WriteMatch(X, f, f', retReg, v);
        TopMatch(X, vm1, vm1', f.(regs := f.regs[retReg := v]), f'.(regs := f'.regs[retReg := v]));
      }
    case Fail(msg) =>
      NoTries(X, vm1.frames, vm1'.frames, msg);
      FinishMatch(X, vm1, vm1', Err(msg));
    case CallBack(proto, ups, cargs) =>
      NewFrameMatch(X, proto, ups, cargs, 0);
      CallBackMatch(X, vm1, vm1', id, args, answers, retReg,
                    NewFrame(X.src, proto, ups, cargs, 0), NewFrame(X.dst, proto, ups, cargs, 0));
  }

  lemma CallBackMatch(X: Pair, vm: VM, vm': VM, id: nat, args: seq<Value>, answers: seq<Outcome>, retReg: nat, f: Frame,
    f': Frame)
    requires VMMatch(X, vm, vm') && FrameMatch(X, f, f')
    ensures VMMatch(X, vm.(frames := [f], callers := vm.callers + [Caller(vm.frames, id, args, answers, retReg)]),
                    vm'.(frames := [f'], callers := vm'.callers + [Caller(vm'.frames, id, args, answers, retReg)]))
  {
    hide FrameMatch;
    assert CallerMatch(X, Caller(vm.frames, id, args, answers, retReg), Caller(vm'.frames, id, args, answers, retReg));
    hide CallerMatch;
  }

  lemma RaiseMatch(X: Pair, vm: VM, vm': VM, msg: Text)
    requires PairOk(X) && VMMatch(X, vm, vm')
    ensures Match(X, Raise(X.env, X.src, vm, msg), Raise(X.env, X.dst, vm', msg))
  {
    NoTries(X, vm.frames, vm'.frames, msg);
    FinishMatch(X, vm, vm', Err(msg));
    hide Finish;
    hide Match;
  }

  /** The running frames, with equal registers, both past the instruction. */
  ghost predicate Ready(X: Pair, vm: VM, vm': VM, f: Frame, f': Frame) {
    PairOk(X) && VMMatch(X, vm, vm') && vm.frames != [] && FrameMatch(X, f, f') && f'.regs == f.regs
  }

  lemma SetMatch(X: Pair, vm: VM, vm': VM, f: Frame, f': Frame, regs: Regs)
    requires Ready(X, vm, vm', f, f')
    ensures VMMatch(X, SetTop(vm, f.(regs := regs)), SetTop(vm', f'.(regs := regs)))
  {
    hide VMMatch;
    assert FrameMatch(X, f.(regs := regs), f'.(regs := regs));
    hide FrameMatch;
    hide PairOk;
    TopMatch(X, vm, vm', f.(regs := regs), f'.(regs := regs));
  }

  /** Matching machines stay so when their shared parts change alike. */
  lemma ShareMatch(X: Pair, vm: VM, vm': VM, globals: map<Text, Value>, cells: seq<seq<Value>>, trace: Trace)
    requires VMMatch(X, vm, vm')
    ensures VMMatch(X, vm.(globals := globals, cells := cells, trace := trace),
      vm'.(globals := globals, cells := cells, trace := trace))
    ensures vm.globals == vm'.globals && vm.cells == vm'.cells && vm.trace == vm'.trace && |vm.frames| == |vm'.frames|
  {
    hide FrameMatch;
    hide CallerMatch;
  }

  lemma PrimMatch(X: Pair, vm: VM, vm': VM, f: Frame, f': Frame, op: Byte, operands: seq<Value>, a: Byte)
    requires Ready(X, vm, vm', f, f')
    ensures Match(X, DoPrim(X.env, X.src, vm, f, op, operands, a), DoPrim(X.env, X.dst, vm', f', op, operands, a))
  {
    var tr := vm.trace + [Prim(op, operands)];
    ShareMatch(X, vm, vm', vm.globals, vm.cells, tr);
    var vm1, vm1' := vm.(trace := tr), vm'.(trace := tr);
    hide VMMatch;
    hide FrameMatch;
    hide PairOk;
    hide Raise;
    match X.env.prim(vm.trace, Prim(op, operands))
    case Ok(v) => SetMatch(X, vm1, vm1', f, f', f.regs[a := v]);
    case Err(msg) =>
      SetMatch(X, vm1, vm1', f, f', f.regs);
      RaiseMatch(X, SetTop(vm1, f), SetTop(vm1', f'), msg);
  }

  lemma CallMatch(X: Pair, vm: VM, vm': VM, f: Frame, f': Frame, ins: Instr)
    requires Ready(X, vm, vm', f, f')
    ensures vm'.frames != [] && Match(X, DoCall(X.env, X.src, vm, f, ins), DoCall(X.env, X.dst, vm', f', ins))
  {
    hide Ready;
    hide VMMatch;
    hide FrameMatch;
    hide PairOk;
    hide Raise;
    hide Enter;
    hide Range;
    hide Ascii;
    hide TypeName;
    ReadyFacts(X, vm, vm', f, f');
    SetMatch(X, vm, vm', f, f', f.regs);
    var vm0, vm0' := SetTop(vm, f), SetTop(vm', f');
    var args := Range(f.regs, ins.b + 1, ins.c);
    match Get(f.regs, ins.b)
    case Native(id) => EnterMatch(X, vm0, vm0', id, args, [], ins.a);
    case Func(proto, ups) =>
      if proto < |X.src.protos| {
        NewFrameMatch(X, proto, ups, args, ins.a);
        PushMatch(X, vm0, vm0', NewFrame(X.src, proto, ups, args, ins.a), NewFrame(X.dst, proto, ups, args, ins.a));
      } else {
        RaiseMatch(X, vm0, vm0', Ascii("nil func"));
      }
    case v => RaiseMatch(X, vm0, vm0', Ascii("cannot call ") + TypeName(v));
  }

  lemma PushMatch(X: Pair, vm: VM, vm': VM, f: Frame, f': Frame)
    requires VMMatch(X, vm, vm') && FrameMatch(X, f, f')
    ensures VMMatch(X, vm.(frames := vm.frames + [f]), vm'.(frames := vm'.frames + [f']))
  {
    hide FrameMatch;
    hide CallerMatch;
  }

  lemma PopMatch(X: Pair, vm: VM, vm': VM)
    requires VMMatch(X, vm, vm') && vm.frames != []
    ensures VMMatch(X, vm.(frames := vm.frames[..|vm.frames| - 1]), vm'.(frames := vm'.frames[..|vm.frames| - 1]))
    ensures FrameMatch(X, vm.frames[|vm.frames| - 1], vm'.frames[|vm.frames| - 1])
  {
    hide FrameMatch;
    hide CallerMatch;
  }

  lemma FrameSame(X: Pair, f: Frame, f': Frame)
    requires FrameMatch(X, f, f')
    ensures f'.ups == f.ups && f'.retReg == f.retReg && f'.proto == f.proto
  {
    hide IsExpansion;
  }

  lemma ReturnMatch(X: Pair, vm: VM, vm': VM, v: Value)
    requires PairOk(X) && VMMatch(X, vm, vm') && vm.frames != []
    ensures vm'.frames != [] && Match(X, DoReturn(X.env, X.src, vm, v), DoReturn(X.env, X.dst, vm', v))
  {
    hide VMMatch;
    hide FrameMatch;
    hide PairOk;
    hide Finish;
    hide Release;
    ShareMatch(X, vm, vm', vm.globals, vm.cells, vm.trace);
    PopMatch(X, vm, vm');
    var f, f' := vm.frames[|vm.frames| - 1], vm'.frames[|vm.frames| - 1];
    FrameSame(X, f, f');
    var vm1, vm1' := vm.(frames := vm.frames[..|vm.frames| - 1]), vm'.(frames := vm'.frames[..|vm.frames| - 1]);
    var cells := Release(vm.cells, f.ups);
    ShareMatch(X, vm1, vm1', vm.globals, cells, vm.trace);
    var vm2, vm2' := vm1.(cells := cells), vm1'.(cells := cells);
    if vm2.frames == [] {
      FinishMatch(X, vm2, vm2', Ok(v));
    } else {
      PopMatch(X, vm2, vm2');
      var g, g' := vm2.frames[|vm2.frames| - 1], vm2'.frames[|vm2.frames| - 1];
      WriteMatch(X, g, g', f.retReg, v);
      TopMatch(X, vm2, vm2', g.(regs := g.regs[f.retReg := v]), g'.(regs := g'.regs[f.retReg := v]));
    }
  }

  lemma ConstMatch(X: Pair, vm: VM, vm': VM, f: Frame, f': Frame, ins: Instr, k: Constant)
    requires Ready(X, vm, vm', f, f')
    ensures Match(X, WithConst(X.env, X.src, vm, f, ins, k), WithConst(X.env, X.dst, vm', f', ins, k))
  {
    ShareMatch(X, vm, vm', vm.globals, vm.cells, vm.trace);
    hide VMMatch;
    hide FrameMatch;
    hide PairOk;
    hide Finish;
    hide Truthy;
    hide ConstText;
    var name := ConstText(X.env, k);
    if ins.op == LOADK || ins.op == LOADF {
      SetMatch(X, vm, vm', f, f', f.regs[ins.a := ConstToValue(k)]);
    } else if ins.op == GETK {
      PrimMatch(X, vm, vm', f, f', GETK, [Get(f.regs, ins.b), Str(name)], ins.a);
    } else if ins.op == SETK {
      PrimMatch(X, vm, vm', f, f', SETK, [Get(f.regs, ins.a), Str(name), Get(f.regs, ins.c)], ins.a);
    } else if ins.op == LOADG {
      SetMatch(X, vm, vm', f, f', f.regs[ins.a := if name in vm.globals then vm.globals[name] else Null]);
    } else if ins.op == STOREG {
      SetMatch(X, vm, vm', f, f', f.regs);
      ShareMatch(X, SetTop(vm, f), SetTop(vm', f'), vm.globals[name := Get(f.regs, ins.a)], vm.cells, vm.trace);
    } else if ins.op == IMPORT {
      if name in X.env.modules {
        SetMatch(X, vm, vm', f, f', f.regs[ins.a := X.env.modules[name]]);
        ShareMatch(X, SetTop(vm, f.(regs := f.regs[ins.a := X.env.modules[name]])),
          SetTop(vm', f'.(regs := f.regs[ins.a := X.env.modules[name]])),
                   vm.globals[name := X.env.modules[name]], vm.cells, vm.trace);
      } else {
        FinishMatch(X, vm, vm', Err(Ascii("unknown module ") + X.env.quote(name)));
      }
    } else if Truthy(X.env, vm.trace, Get(f.regs, ins.a)) {
      SetMatch(X, vm, vm', f, f', f.regs);
    } else {
      FinishMatch(X, vm, vm', Err(name));
    }
  }

  lemma BadConstMatch(X: Pair, vm: VM, vm': VM, f: Frame, f': Frame, ins: Instr)
    requires Ready(X, vm, vm', f, f')
    ensures Match(X, BadConst(X.env, X.src, vm, f, ins), BadConst(X.env, X.dst, vm', f', ins))
  {
    ShareMatch(X, vm, vm', vm.globals, vm.cells, vm.trace);
    SetMatch(X, vm, vm', f, f', f.regs);
    FinishMatch(X, vm, vm', Err(Ascii("assertion failed")));
    FinishMatch(X, vm, vm', Err(BadConstText(ins)));
    hide VMMatch;
    hide FrameMatch;
    hide PairOk;
    hide Finish;
    hide Truthy;
    hide Ascii;
  }

  /** Instructions that work on registers, globals and upvalues. */
  lemma OtherMatch(X: Pair, vm: VM, vm': VM, f: Frame, f': Frame, ins: Instr)
    requires Ready(X, vm, vm', f, f') && ins.op != TRY
    ensures Match(X, ExecOther(X.env, X.src, vm, f, ins), ExecOther(X.env, X.dst, vm', f', ins))
  {
    ShareMatch(X, vm, vm', vm.globals, vm.cells, vm.trace);
    assert |X.src.protos| == |X.dst.protos| && f'.ups == f.ups && f'.tries == f.tries == [];
    SetMatch(X, vm, vm', f, f', f.regs);
    hide VMMatch;
    hide FrameMatch;
    hide PairOk;
    hide Finish;
    hide DoReturn;
    hide Raise;
    hide AsStr;
    hide Ascii;
    hide Range;
    hide ToI16;
    var top, top' := SetTop(vm, f), SetTop(vm', f');
    if ins.op == HALT {
      FinishMatch(X, vm, vm', Ok(Null));
    } else if ins.op == NOP {
    } else if ins.op == MOVE || ins.op == DUP {
      SetMatch(X, vm, vm', f, f', f.regs[ins.a := Get(f.regs, ins.b)]);
    } else if ins.op == LOADI {
      SetMatch(X, vm, vm', f, f', f.regs[ins.a := Int(ins.SBx())]);
    } else if ins.op == LOADN {
      SetMatch(X, vm, vm', f, f', f.regs[ins.a := Null]);
    } else if ins.op == LOADB {
      SetMatch(X, vm, vm', f, f', f.regs[ins.a := Bool(ins.b != 0)]);
    } else if ins.op == RET {
      ReturnMatch(X, top, top', Get(f.regs, ins.a));
    } else if ins.op == RETN {
      ReturnMatch(X, top, top', Null);
    } else if ins.op == MAKEFN {
      SetMatch(X, vm, vm', f, f', f.regs[ins.a := Func(ins.Bx(), NoUpvals)]);
      FinishMatch(X, vm, vm', Err(Ascii("MAKEFN bad proto ") + Digits(ins.Bx())));
    } else if ins.op == CLOSURE {
      ClosureMatch(X, vm, vm', f, f', ins);
    } else if ins.op == GETUPV || ins.op == SETUPV {
      UpvalMatch(X, vm, vm', f, f', ins);
    } else if ins.op == SWAP {
      SetMatch(X, vm, vm', f, f', f.regs[ins.a := Get(f.regs, ins.b)][ins.b := Get(f.regs, ins.a)]);
    } else if ins.op == ENDTRY {
      assert f.(tries := []) == f && f'.(tries := []) == f';
    } else if ins.op == THROW {
      RaiseMatch(X, top, top', AsStr(X.env, vm.trace, Get(f.regs, ins.a)));
    } else {
      FinishMatch(X, vm, vm', Err(UnknownText(ins.op)));
    }
  }

  lemma ReadyFacts(X: Pair, vm: VM, vm': VM, f: Frame, f': Frame)
    requires Ready(X, vm, vm', f, f')
    ensures PairOk(X) && VMMatch(X, vm, vm') && vm'.globals == vm.globals && vm'.cells == vm.cells
      && vm'.trace == vm.trace
    ensures |X.src.protos| == |X.dst.protos| && f'.ups == f.ups && f'.regs == f.regs && vm.frames != []
      && vm'.frames != []
  {
    hide IsExpansion;
    hide Movable;
  }

  lemma ClosureMatch(X: Pair, vm: VM, vm': VM, f: Frame, f': Frame, ins: Instr)
    requires Ready(X, vm, vm', f, f') && ins.op == CLOSURE
    ensures vm'.frames != [] && Match(X, ExecOther(X.env, X.src, vm, f, ins), ExecOther(X.env, X.dst, vm', f', ins))
  {
    hide Ready;
    hide VMMatch;
    hide PairOk;
    hide Finish;
    hide Ascii;
    hide Range;
    ReadyFacts(X, vm, vm', f, f');
    var regs := f.regs[ins.a := Func(ins.b, Upvals(|vm.cells|))];
    SetMatch(X, vm, vm', f, f', regs);
    ShareMatch(X, SetTop(vm, f.(regs := regs)), SetTop(vm', f'.(regs := regs)), vm.globals,
      vm.cells + [Range(f.regs, ins.a + 1, ins.c)], vm.trace);
    FinishMatch(X, vm, vm', Err(Ascii("CLOSURE bad proto")));
  }

  lemma UpvalMatch(X: Pair, vm: VM, vm': VM, f: Frame, f': Frame, ins: Instr)
    requires Ready(X, vm, vm', f, f') && (ins.op == GETUPV || ins.op == SETUPV)
    ensures vm'.frames != [] && Match(X, ExecOther(X.env, X.src, vm, f, ins), ExecOther(X.env, X.dst, vm', f', ins))
  {
    hide Ready;
    hide VMMatch;
    hide PairOk;
    hide Finish;
    hide Ascii;
    ReadyFacts(X, vm, vm', f, f');
    var ups := Cells(vm, f.ups);
    assert Cells(vm', f'.ups) == ups;
    FinishMatch(X, vm, vm', Err(Ascii("GETUPV OOB")));
    FinishMatch(X, vm, vm', Err(Ascii("SETUPV OOB")));
    SetMatch(X, vm, vm', f, f', f.regs);
    if ins.op == GETUPV {
      if ins.b < |ups| {
        SetMatch(X, vm, vm', f, f', f.regs[ins.a := ups[ins.b]]);
      }
    } else if ins.a < |ups| {
      ShareMatch(X, SetTop(vm, f), SetTop(vm', f'), vm.globals, vm.cells[f.ups.id := ups[ins.a := Get(f.regs, ins.b)]],
        vm.trace);
    }
  }

  /** Every instruction but a jump or TRY. */
  lemma ExecMatch(X: Pair, vm: VM, vm': VM, f: Frame, f': Frame, ins: Instr)
    requires Ready(X, vm, vm', f, f') && ins.op != TRY && !IsJump(ins.op)
    ensures vm'.frames != [] && Match(X, Exec(X.env, X.src, vm, f, ins), Exec(X.env, X.dst, vm', f', ins))
  {
    ShareMatch(X, vm, vm', vm.globals, vm.cells, vm.trace);
    assert X.dst.consts == X.src.consts;
    hide Match;
    hide Ready;
    hide VMMatch;
    hide FrameMatch;
    hide PairOk;
    hide DoPrim;
    hide WithConst;
    hide BadConst;
    hide DoCall;
    hide ExecOther;
    hide Operands;
    hide ConstIndex;
    if IsPrim(ins.op) {
      SameOperands(X, vm, vm', f, f', ins);
      PrimMatch(X, vm, vm', f, f', ins.op, Operands(f.regs, ins), ins.a);
    } else if UsesConst(ins.op) {
      if ConstIndex(ins) < |X.src.consts| {
        ConstMatch(X, vm, vm', f, f', ins, X.src.consts[ConstIndex(ins)]);
      } else {
        BadConstMatch(X, vm, vm', f, f', ins);
      }
    } else if ins.op == CALL {
      CallMatch(X, vm, vm', f, f', ins);
    } else {
      OtherMatch(X, vm, vm', f, f', ins);
    }
  }

  lemma SameOperands(X: Pair, vm: VM, vm': VM, f: Frame, f': Frame, ins: Instr)
    requires Ready(X, vm, vm', f, f')
    ensures Operands(f.regs, ins) == Operands(f'.regs, ins)
  {
    hide Operands;
    hide VMMatch;
    hide FrameMatch;
    hide PairOk;
  }

  // ---- one step ----

  /** What the expansion of one instruction looks like. */
  lemma ExpandedAt(X: Pair, p: nat, i: nat)
    requires PairOk(X) && p < |X.plans| && i < |X.plans[p].at|
    ensures p < |X.src.protos| && p < |X.dst.protos| && |X.plans[p].at| == |X.src.protos[p].code|
    ensures var plan, ins := X.plans[p], X.src.protos[p].code[i];
      && 0 <= plan.at[i] < plan.end <= |X.dst.protos[p].code|
        && X.dst.protos[p].code[plan.at[i]] == Relocated(plan, ins, i)
      && ins.op != TRY && (IsJump(ins.op) ==> Target(ins, i) >= 0 && FitsI16(NewOffset(plan, ins, i)))
      && Entry(plan, |plan.at|) <= plan.end
  {
    hide ToI16;
    hide MakeAsBx;
    assert IsExpansion(X.src.protos[p].code, X.dst.protos[p].code, X.plans[p]) && Movable(X.src.protos[p].code);
    assert X.plans[p].at[|X.plans[p].at| - 1] < X.plans[p].end;
  }

  lemma RelocatedJump(plan: Plan, ins: Instr, i: int)
    requires 0 <= i < |plan.at| && IsJump(ins.op) && FitsI16(NewOffset(plan, ins, i))
    ensures var d := Relocated(plan, ins, i); d.op == ins.op && d.a == ins.a && d.SBx() == NewOffset(plan, ins, i)
  {
    SBxOf(ins.op, ins.a, NewOffset(plan, ins, i));
    hide ToI16;
    hide MakeAsBx;
  }

  lemma JumpMatch(X: Pair, vm: VM, vm': VM, f: Frame, f': Frame, i: nat)
    requires PairOk(X) && VMMatch(X, vm, vm') && vm.frames != [] && FrameMatch(X, f, f') && f'.regs == f.regs
    requires f.proto < |X.plans| && i < |X.plans[f.proto].at| && f.ip == i + 1 && f'.ip == X.plans[f.proto].at[i] + 1
    requires IsJump(X.src.protos[f.proto].code[i].op)
    ensures vm'.frames != []
    ensures Match(X, Exec(X.env, X.src, vm, f, X.src.protos[f.proto].code[i]),
                  Exec(X.env, X.dst, vm', f', Relocated(X.plans[f.proto], X.src.protos[f.proto].code[i], i)))
  {
    hide PairOk;
    hide VMMatch;
    hide ToI16;
    hide Relocated;
    hide Truthy;
    var plan := X.plans[f.proto];
    ExpandedAt(X, f.proto, i);
    var ins := X.src.protos[f.proto].code[i];
    var ins' := Relocated(plan, ins, i);
    var t := Target(ins, i);
    RelocatedJump(plan, ins, i);
    ShareMatch(X, vm, vm', vm.globals, vm.cells, vm.trace);
    if Taken(X.env, vm.trace, f.regs, ins) {
      var g, g' := f.(ip := t), f'.(ip := NewTarget(plan, t));
      assert FrameMatch(X, g, g');
      TopMatch(X, vm, vm', g, g');
    } else {
      TopMatch(X, vm, vm', f, f');
    }
  }

  lemma PastMatch(X: Pair, f: Frame, f': Frame)
    requires PairOk(X) && FrameMatch(X, f, f')
    requires f.proto < |X.plans| && 0 <= f.ip < |X.plans[f.proto].at| && f'.ip == X.plans[f.proto].at[f.ip]
    ensures FrameMatch(X, f.(ip := f.ip + 1), f'.(ip := f'.ip + 1)) && f'.regs == f.regs && f'.proto == f.proto
  {
    hide PairOk;
  }

  lemma Tops(X: Pair, vm: VM, vm': VM)
    requires VMMatch(X, vm, vm') && vm.frames != []
    ensures |vm'.frames| == |vm.frames| && FrameMatch(X, vm.frames[|vm.frames| - 1], vm'.frames[|vm.frames| - 1])
  {
    hide FrameMatch;
    hide CallerMatch;
  }

  /** Both machines stand at the instruction itself. */
  lemma AlignedStep(X: Pair, vm: VM, vm': VM)
    requires PairOk(X) && VMMatch(X, vm, vm') && vm.frames != [] && |vm'.frames| == |vm.frames|
    requires var f := vm.frames[|vm.frames| - 1];
      f.proto < |X.plans| && f.ip < |X.plans[f.proto].at| && f.ip >= 0
        && vm'.frames[|vm.frames| - 1].ip == X.plans[f.proto].at[f.ip]
    ensures Match(X, Step(X.env, X.src, Running(vm)), Step(X.env, X.dst, Running(vm')))
  {
    hide *;
    var f, f' := vm.frames[|vm.frames| - 1], vm'.frames[|vm.frames| - 1];
    var i := f.ip;
    ExpandedAt(X, f.proto, i);
    Tops(X, vm, vm');
    PastMatch(X, f, f');
    FetchExec(X.env, X.src, vm);
    FetchExec(X.env, X.dst, vm');
    var ins := X.src.protos[f.proto].code[i];
    ReadyIntro(X, vm, vm', f.(ip := i + 1), f'.(ip := f'.ip + 1));
    if IsJump(ins.op) {
      JumpMatch(X, vm, vm', f.(ip := i + 1), f'.(ip := f'.ip + 1), i);
    } else {
      CopiedIs(X.plans[f.proto], ins, i);
      ExecMatch(X, vm, vm', f.(ip := i + 1), f'.(ip := f'.ip + 1), ins);
    }
  }

  lemma CopiedIs(plan: Plan, ins: Instr, i: int)
    requires 0 <= i < |plan.at| && !IsJump(ins.op)
    ensures Relocated(plan, ins, i) == ins
  {
  }

  lemma ReadyIntro(X: Pair, vm: VM, vm': VM, f: Frame, f': Frame)
    requires PairOk(X) && VMMatch(X, vm, vm') && vm.frames != [] && FrameMatch(X, f, f') && f'.regs == f.regs
    ensures Ready(X, vm, vm', f, f')
  {
  }

  // ---- sleds ----

  function WithIp(vm: VM, ip: int): VM
    requires vm.frames != []
  {
    SetTop(vm, vm.frames[|vm.frames| - 1].(ip := ip))
  }

  function TopIp(vm: VM): int
    requires vm.frames != []
  {
    vm.frames[|vm.frames| - 1].ip
  }

  function TopCode(ch: Chunk, vm: VM): seq<Instr>
    requires vm.frames != []
  {
    Code(ch, vm.frames[|vm.frames| - 1].proto)
  }

  lemma WithIpIs(vm: VM, ip: int)
    requires vm.frames != []
    ensures var d := WithIp(vm, ip);
      && d.frames != [] && TopIp(d) == ip && |d.frames| == |vm.frames|
        && d.frames[|vm.frames| - 1] == vm.frames[|vm.frames| - 1].(ip := ip)
      && forall q :: WithIp(d, q) == WithIp(vm, q)
    ensures WithIp(vm, TopIp(vm)) == vm
  {
    var d := WithIp(vm, ip);
    assert d.frames[..|vm.frames| - 1] == vm.frames[..|vm.frames| - 1];
    assert vm.frames[..|vm.frames| - 1] + [vm.frames[|vm.frames| - 1]] == vm.frames;
  }

  lemma NopStep(env: Env, ch: Chunk, vm: VM)
    requires vm.frames != [] && vm.frames[|vm.frames| - 1].proto < |ch.protos|
    requires 0 <= TopIp(vm) < |TopCode(ch, vm)| && TopCode(ch, vm)[TopIp(vm)].op == NOP
    ensures Step(env, ch, Running(vm)) == Running(WithIp(vm, TopIp(vm) + 1))
  {
  }

  lemma SkipInsn(ins: Instr, d: int)
    requires 0 <= d < 0x8000 && ins == MakeAsBx(JMP, 0, ToI16(d))
    ensures ins.op == JMP && ins.SBx() == d
  {
    hide MakeAsBx, Instr.SBx;
    SBxOf(JMP, 0, ToI16(d));
  }

  lemma JmpStep(env: Env, ch: Chunk, vm: VM, ins: Instr)
    requires vm.frames != [] && vm.frames[|vm.frames| - 1].proto < |ch.protos|
    requires 0 <= TopIp(vm) < |TopCode(ch, vm)| && TopCode(ch, vm)[TopIp(vm)] == ins && ins.op == JMP
    ensures Step(env, ch, Running(vm)) == Running(WithIp(vm, TopIp(vm) + 1 + ins.SBx()))
  {
    hide Instr.SBx;
  }

  lemma SkipStep(env: Env, ch: Chunk, vm: VM, to: int)
    requires vm.frames != [] && vm.frames[|vm.frames| - 1].proto < |ch.protos|
    requires 0 <= TopIp(vm) < |TopCode(ch, vm)| && TopIp(vm) < to && to - TopIp(vm) - 1 < 0x8000
    requires TopCode(ch, vm)[TopIp(vm)] == MakeAsBx(JMP, 0, ToI16(to - TopIp(vm) - 1))
    ensures Step(env, ch, Running(vm)) == Running(WithIp(vm, to))
  {
    hide *;
    SkipInsn(TopCode(ch, vm)[TopIp(vm)], to - TopIp(vm) - 1);
    JmpStep(env, ch, vm, TopCode(ch, vm)[TopIp(vm)]);
  }

  lemma WithIpCode(ch: Chunk, vm: VM, ip: int)
    requires vm.frames != []
    ensures var d := WithIp(vm, ip);
      && d.frames != [] && TopIp(d) == ip && TopCode(ch, d) == TopCode(ch, vm)
      && d.frames[|d.frames| - 1].proto == vm.frames[|vm.frames| - 1].proto
    ensures forall q :: WithIp(WithIp(vm, ip), q) == WithIp(vm, q)
    ensures WithIp(vm, TopIp(vm)) == vm
  {
    WithIpIs(vm, ip);
  }

  lemma SledHead(out: seq<Instr>, from: int, to: int, m: int)
    requires SledVia(out, from, to, m)
    ensures 0 <= from <= m <= to < |out| && to - m - 1 < 0x8000
    ensures from < m ==> out[from].op == NOP && SledVia(out, from + 1, to, m)
    ensures m < to ==> out[m] == MakeAsBx(JMP, 0, ToI16(to - m - 1))
  {
    hide MakeAsBx;
    hide ToI16;
  }

  lemma RunOne(env: Env, ch: Chunk, s: State, t: State, k: nat)
    requires Step(env, ch, s) == t
    ensures Run(env, ch, s, k + 1) == Run(env, ch, t, k)
  {
    hide Step;
  }

  /** A sled changes nothing but where the frame stands. */
  lemma {:induction false} SledRun(env: Env, ch: Chunk, vm: VM, from: int, to: int, m: int)
    returns (k: nat)
    requires vm.frames != [] && vm.frames[|vm.frames| - 1].proto < |ch.protos| && TopIp(vm) == from
    requires SledVia(TopCode(ch, vm), from, to, m)
    ensures Run(env, ch, Running(vm), k) == Running(WithIp(vm, to))
    decreases |TopCode(ch, vm)| - from
  {
    hide *;
    SledHead(TopCode(ch, vm), from, to, m);
    WithIpCode(ch, vm, from + 1);
    if from == to {
      k := 0;
      RunZero(env, ch, Running(vm));
    } else if from < m {
      NopStep(env, ch, vm);
      var k1 := SledRun(env, ch, WithIp(vm, from + 1), from + 1, to, m);
      k := k1 + 1;
      RunOne(env, ch, Running(vm), Running(WithIp(vm, from + 1)), k1);
    } else {
      SkipStep(env, ch, vm, to);
      k := 1;
      RunOne(env, ch, Running(vm), Running(WithIp(vm, to)), 0);
      RunZero(env, ch, Running(WithIp(vm, to)));
    }
  }

  /** Past the last instruction there is only junk. */
  lemma TailAt(X: Pair, p: nat)
    requires PairOk(X) && p < |X.plans|
    ensures p < |X.src.protos| && p < |X.dst.protos| && |X.plans[p].at| == |X.src.protos[p].code|
    ensures Entry(X.plans[p], |X.plans[p].at|) >= 0
    ensures forall q :: Entry(X.plans[p], |X.plans[p].at|) <= q < |X.dst.protos[p].code| ==>
      IsJunk(X.dst.protos[p].code[q])
  {
    assert IsExpansion(X.src.protos[p].code, X.dst.protos[p].code, X.plans[p]);
    hide IsSled;
    hide Relocated;
    hide Movable;
  }

  /** The running frame of the original is past its last instruction. */
  predicate Over(X: Pair, vm: VM)
    requires vm.frames != []
  {
    var f := vm.frames[|vm.frames| - 1];
    f.proto < |X.plans| && f.ip >= |X.plans[f.proto].at|
  }

  /** Dead junk, step by step, until the frame is off the end. */
  lemma JunkStep(X: Pair, vm: VM, vm': VM)
    returns (vm1: VM)
    requires PairOk(X) && VMMatch(X, vm, vm') && vm.frames != [] && vm'.frames != [] && Over(X, vm)
    requires 0 <= TopIp(vm') < |TopCode(X.dst, vm')|
    ensures vm1.frames != [] && Step(X.env, X.dst, Running(vm')) == Running(vm1) && VMMatch(X, vm, vm1)
      && TopIp(vm1) == TopIp(vm') + 1
  {
    hide PairOk;
    hide VMMatch;
    hide Exec;
    Tops(X, vm, vm');
    var f, f' := vm.frames[|vm.frames| - 1], vm'.frames[|vm.frames| - 1];
    TailAt(X, f.proto);
    assert TopIp(vm') == f'.ip && f'.proto == f.proto;
    var ins := X.dst.protos[f.proto].code[f'.ip];
    FetchExec(X.env, X.dst, vm');
    var g := JunkFrame(X.env, X.dst, vm', f'.(ip := f'.ip + 1), ins);
    vm1 := SetTop(vm', g);
    assert FrameMatch(X, f, g);
    hide FrameMatch;
    TopMatch(X, vm, vm', f, g);
    assert SetTop(vm, f) == vm by { assert vm.frames[..|vm.frames| - 1] + [f] == vm.frames; }
  }

  lemma JunkFrame(env: Env, ch: Chunk, vm: VM, f: Frame, ins: Instr)
    returns (g: Frame)
    requires vm.frames != [] && IsJunk(ins)
    ensures Exec(env, ch, vm, f, ins) == Running(SetTop(vm, g)) && g == f.(regs := g.regs)
  {
    hide ToI16, Finish, Raise, DoCall, DoPrim, WithConst, BadConst, DoReturn, Truthy, Operands, SetTop;
    if ins.op == NOP {
      g := f;
    } else if ins.op == LOADN {
      g := f.(regs := f.regs[ins.a := Null]);
    } else if ins.op == LOADB {
      g := f.(regs := f.regs[ins.a := Bool(ins.b != 0)]);
    } else if ins.op == LOADI {
      g := f.(regs := f.regs[ins.a := Int(ins.SBx())]);
    } else {
      g := f.(regs := f.regs[ins.a := Get(f.regs, ins.b)]);
    }
  }

  lemma OffEnd(X: Pair, vm: VM, vm': VM)
    requires PairOk(X) && VMMatch(X, vm, vm') && vm.frames != [] && vm'.frames != [] && Over(X, vm)
    requires TopIp(vm') >= |TopCode(X.dst, vm')|
    ensures Match(X, Step(X.env, X.src, Running(vm)), Step(X.env, X.dst, Running(vm')))
  {
    hide PairOk;
    hide VMMatch;
    hide Finish;
    hide Match;
    hide Release;
    hide Step;
    Tops(X, vm, vm');
    var f, f' := vm.frames[|vm.frames| - 1], vm'.frames[|vm.frames| - 1];
    TailAt(X, f.proto);
    OffStep(X.env, X.src, vm);
    OffStep(X.env, X.dst, vm');
    ShareMatch(X, vm, vm', vm.globals, Release(vm.cells, f.ups), vm.trace);
    FinishMatch(X, vm.(cells := Release(vm.cells, f.ups)), vm'.(cells := Release(vm.cells, f.ups)), Ok(Null));
  }

  lemma {:induction false} Slide(X: Pair, vm: VM, vm': VM)
    returns (k: nat)
    requires PairOk(X) && VMMatch(X, vm, vm') && vm.frames != [] && vm'.frames != [] && Over(X, vm)
    ensures k >= 1 && Match(X, Step(X.env, X.src, Running(vm)), Run(X.env, X.dst, Running(vm'), k))
    decreases |TopCode(X.dst, vm')| - TopIp(vm')
  {
    hide *;
    SlideStart(X, vm, vm');
    if TopIp(vm') >= |TopCode(X.dst, vm')| {
      OffEnd(X, vm, vm');
      k := 1;
      RunOne(X.env, X.dst, Running(vm'), Step(X.env, X.dst, Running(vm')), 0);
      RunZero(X.env, X.dst, Step(X.env, X.dst, Running(vm')));
    } else {
      var vm1 := JunkStep(X, vm, vm');
      SlideStart(X, vm, vm1);
      var k1 := Slide(X, vm, vm1);
      k := k1 + 1;
      RunOne(X.env, X.dst, Running(vm'), Running(vm1), k1);
    }
  }

  lemma RunZero(env: Env, ch: Chunk, s: State)
    ensures Run(env, ch, s, 0) == s
  {
    hide Step;
  }

  lemma SlideStart(X: Pair, vm: VM, vm': VM)
    requires PairOk(X) && VMMatch(X, vm, vm') && vm.frames != [] && vm'.frames != [] && Over(X, vm)
    ensures TopIp(vm') >= 0
    ensures vm.frames[|vm.frames| - 1].proto < |X.dst.protos|
      && TopCode(X.dst, vm') == X.dst.protos[vm.frames[|vm.frames| - 1].proto].code
  {
    hide PairOk;
    hide VMMatch;
    Tops(X, vm, vm');
    TailAt(X, vm.frames[|vm.frames| - 1].proto);
  }

  lemma StandsAt(X: Pair, f: Frame, f': Frame)
    requires PairOk(X) && FrameMatch(X, f, f') && f.proto < |X.plans| && f.ip < |X.plans[f.proto].at|
    ensures f'.proto == f.proto < |X.dst.protos| && 0 <= f.ip
      && (f'.ip == Entry(X.plans[f.proto], f.ip) || f'.ip == X.plans[f.proto].at[f.ip])
  {
    hide IsExpansion;
    hide Movable;
  }

  lemma OverIs(X: Pair, vm: VM)
    requires vm.frames != []
    ensures Over(X, vm) <==> var f := vm.frames[|vm.frames| - 1]; f.proto < |X.plans| && f.ip >= |X.plans[f.proto].at|
  {
  }

  lemma TopIs(ch: Chunk, vm: VM)
    requires vm.frames != [] && vm.frames[|vm.frames| - 1].proto < |ch.protos|
    ensures TopIp(vm) == vm.frames[|vm.frames| - 1].ip
      && TopCode(ch, vm) == ch.protos[vm.frames[|vm.frames| - 1].proto].code
  {
  }

  /** The original takes one step; the expanded machine takes one or more to match it. */
  lemma {:induction false} StepMatch(X: Pair, vm: VM, vm': VM)
    returns (k: nat)
    requires PairOk(X) && VMMatch(X, vm, vm')
    ensures k >= 1 && Match(X, Step(X.env, X.src, Running(vm)), Run(X.env, X.dst, Running(vm'), k))
  {
    hide *;
    if vm.frames == [] || vm.frames[|vm.frames| - 1].proto >= |X.plans| {
      k := 1;
      StuckMatch(X, vm, vm');
      RunOne(X.env, X.dst, Running(vm'), Step(X.env, X.dst, Running(vm')), 0);
      RunZero(X.env, X.dst, Step(X.env, X.dst, Running(vm')));
      return;
    }
    Tops(X, vm, vm');
    OverIs(X, vm);
    var f, f' := vm.frames[|vm.frames| - 1], vm'.frames[|vm.frames| - 1];
    if f.ip >= |X.plans[f.proto].at| {
      k := Slide(X, vm, vm');
      return;
    }
    StandsAt(X, f, f');
    TopIs(X.dst, vm');
    var to := X.plans[f.proto].at[f.ip];
    var k0 := 0;
    WithIpIs(vm', to);
    WithIpIs(vm', f'.ip);
    if f'.ip != to {
      var m := SledAt(X, f.proto, f.ip);
      k0 := SledRun(X.env, X.dst, vm', f'.ip, to, m);
    } else {
      RunZero(X.env, X.dst, Running(vm'));
    }
    Aligned(X, vm, vm', to);
    var vm1 := WithIp(vm', to);
    AlignedStep(X, vm, vm1);
    k := k0 + 1;
    RunAdd(X.env, X.dst, Running(vm'), k0, 1);
    RunOne(X.env, X.dst, Running(vm1), Step(X.env, X.dst, Running(vm1)), 0);
    RunZero(X.env, X.dst, Step(X.env, X.dst, Running(vm1)));
  }

  lemma SledAt(X: Pair, p: nat, i: nat)
    returns (m: int)
    requires PairOk(X) && p < |X.plans| && i < |X.plans[p].at|
    ensures p < |X.dst.protos| && SledVia(X.dst.protos[p].code, Entry(X.plans[p], i), X.plans[p].at[i], m)
  {
    assert IsSled(X.dst.protos[p].code, Entry(X.plans[p], i), X.plans[p].at[i]);
    m :| SledVia(X.dst.protos[p].code, Entry(X.plans[p], i), X.plans[p].at[i], m);
  }

  lemma MovedMatch(X: Pair, f: Frame, f': Frame, to: int)
    requires FrameMatch(X, f, f') && f.proto < |X.plans| && 0 <= f.ip < |X.plans[f.proto].at|
      && to == X.plans[f.proto].at[f.ip]
    ensures FrameMatch(X, f, f'.(ip := to))
  {
  }

  /** Moved to the instruction itself, the expanded frame still matches. */
  lemma Aligned(X: Pair, vm: VM, vm': VM, to: int)
    requires VMMatch(X, vm, vm') && vm.frames != [] && vm'.frames != []
    requires var f := vm.frames[|vm.frames| - 1];
      f.proto < |X.plans| && f.ip < |X.plans[f.proto].at| && f.ip >= 0 && to == X.plans[f.proto].at[f.ip]
    ensures VMMatch(X, vm, WithIp(vm', to))
  {
    hide VMMatch;
    hide FrameMatch;
    Tops(X, vm, vm');
    var f, f' := vm.frames[|vm.frames| - 1], vm'.frames[|vm.frames| - 1];
    MovedMatch(X, f, f', to);
    TopMatch(X, vm, vm', f, f'.(ip := to));
    assert SetTop(vm, f) == vm by { assert vm.frames[..|vm.frames| - 1] + [f] == vm.frames; }
  }

  lemma StuckMatch(X: Pair, vm: VM, vm': VM)
    requires PairOk(X) && VMMatch(X, vm, vm')
    requires vm.frames == [] || vm.frames[|vm.frames| - 1].proto >= |X.plans|
    ensures Match(X, Step(X.env, X.src, Running(vm)), Step(X.env, X.dst, Running(vm')))
  {
    if vm.frames == [] {
      FinishMatch(X, vm, vm', Ok(Null));
    } else {
      assert FrameMatch(X, vm.frames[|vm.frames| - 1], vm'.frames[|vm.frames| - 1]);
      FinishMatch(X, vm, vm', Err(Ascii("CallClosure: nil closure")));
    }
    hide Finish;
    hide Match;
    hide Ascii;
    hide Exec;
    hide VMMatch;
  }

  // ---- whole runs ----

  lemma {:induction false} RunsMatch(X: Pair, s: State, s': State, n: nat)
    returns (m: nat)
    requires PairOk(X) && Match(X, s, s')
    ensures Match(X, Run(X.env, X.src, s, n), Run(X.env, X.dst, s', m))
    ensures Run(X.env, X.src, s, n).Running? ==> m >= n
    decreases n
  {
    hide Step;
    hide PairOk;
    m := 0;
    if n > 0 {
      if s.Halted? {
        HaltedStays(X.env, X.src, s, n);
      } else {
        var k := StepMatch(X, s.vm, s'.vm);
        var s1' := Run(X.env, X.dst, s', k);
        hide Match;
        var m1 := RunsMatch(X, Step(X.env, X.src, s), s1', n - 1);
        RunAdd(X.env, X.dst, s', k, m1);
        m := k + m1;
      }
    }
  }

  lemma SameEnds(X: Pair, s: State, s': State, t: State)
    requires PairOk(X) && Match(X, s, s')
    ensures EndsIn(X.env, X.src, s, t) <==> EndsIn(X.env, X.dst, s', t)
  {
    hide PairOk;
    hide Run;
    if EndsIn(X.env, X.src, s, t) {
      var n: nat :| Run(X.env, X.src, s, n) == t;
      var m := RunsMatch(X, s, s', n);
    }
    if EndsIn(X.env, X.dst, s', t) {
      var m: nat :| Run(X.env, X.dst, s', m) == t;
      var m2 := RunsMatch(X, s, s', m);
      if Run(X.env, X.src, s, m).Running? {
        HaltedLater(X.env, X.dst, s', m, m2);
      } else {
        HaltsOnce(X.env, X.dst, s', m, m2);
      }
    }
  }

  lemma MatchTraces(X: Pair, s: State, s': State)
    requires Match(X, s, s')
    ensures TraceOf(s) == TraceOf(s')
  {
    hide FrameMatch;
  }

  /** Matching machines do the same operations and native calls in the same order, whether they end or not. */
  lemma SameTraces(X: Pair, s: State, s': State, tr: Trace)
    requires PairOk(X) && Match(X, s, s')
    ensures Begins(X.env, X.src, s, tr) <==> Begins(X.env, X.dst, s', tr)
  {
    hide PairOk, Run, VMMatch;
    if Begins(X.env, X.src, s, tr) {
      var n: nat :| tr <= TraceOf(Run(X.env, X.src, s, n));
      var m := RunsMatch(X, s, s', n);
      MatchTraces(X, Run(X.env, X.src, s, n), Run(X.env, X.dst, s', m));
    }
    if Begins(X.env, X.dst, s', tr) {
      var m: nat :| tr <= TraceOf(Run(X.env, X.dst, s', m));
      var m2 := RunsMatch(X, s, s', m);
      BeginsLater(X.env, X.dst, s', tr, m, m2);
      MatchTraces(X, Run(X.env, X.src, s, m), Run(X.env, X.dst, s', m2));
    }
  }

  lemma PairNames(X: Pair)
    requires PairOk(X)
    ensures |X.dst.protos| == |X.src.protos| && X.dst.mainIndex == X.src.mainIndex
    ensures forall i :: 0 <= i < |X.src.protos| ==> X.src.protos[i].name == X.dst.protos[i].name
  {
    hide IsExpansion;
    hide Movable;
  }

  lemma FreshMatch(X: Pair, f: Frame, f': Frame, globals: map<Text, Value>)
    requires FrameMatch(X, f, f')
    ensures VMMatch(X, VM([f], [], globals, [], []), VM([f'], [], globals, [], []))
  {
    hide FrameMatch;
  }

  lemma StartMatch(X: Pair, arg: Value, globals: map<Text, Value>)
    requires PairOk(X)
    ensures Match(X, Start(X.env, X.src, arg, globals), Start(X.env, X.dst, arg, globals))
  {
    hide PairOk;
    hide VMMatch;
    hide BindNames;
    hide NewFrame;
    hide Ascii;
    PairNames(X);
    SameBindings(X.src.protos, X.dst.protos, globals + X.env.modules);
    var ix := X.src.mainIndex;
    if 0 <= ix < |X.src.protos| {
      NewFrameMatch(X, ix, NoUpvals, [arg], 0);
      FreshMatch(X, NewFrame(X.src, ix, NoUpvals, [arg], 0), NewFrame(X.dst, ix, NoUpvals, [arg], 0),
        BindNames(X.src.protos, globals + X.env.modules));
    }
  }

  /**
   Expansion keeps every run: for every choice of NOPs, junk blocks and tail, the expanded chunk ends with an outcome,
   globals and a trace exactly when the original does; and its run, finite or not, begins with the same events.
   */
  lemma ExpansionCorrect(X: Pair, arg: Value, globals: map<Text, Value>, t: State, tr: Trace)
    requires PairOk(X)
    ensures EndsIn(X.env, X.src, Start(X.env, X.src, arg, globals), t) <==>
      EndsIn(X.env, X.dst, Start(X.env, X.dst, arg, globals), t)
    ensures Begins(X.env, X.src, Start(X.env, X.src, arg, globals), tr) <==>
      Begins(X.env, X.dst, Start(X.env, X.dst, arg, globals), tr)
  {
    StartMatch(X, arg, globals);
    hide PairOk;
    hide Start;
    hide Match;
    hide EndsIn;
    hide Begins;
    SameEnds(X, Start(X.env, X.src, arg, globals), Start(X.env, X.dst, arg, globals), t);
    SameTraces(X, Start(X.env, X.src, arg, globals), Start(X.env, X.dst, arg, globals), tr);
  }
}
