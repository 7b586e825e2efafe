/**
 The handler discipline.  Which try statements enclose an instruction can be read off the code: the TRYs before it that
 no ENDTRY has closed.  For code whose jumps stay between the same TRYs, every frame's handler stack is, at every step
 of every run, exactly the catch points of the TRYs around its ip.
 */
module Handlers {
  import opened Bytecode
  import opened Vm

  /** The positions of the TRYs open before instruction i, outermost first. */
  function Open(code: seq<Instr>, i: nat): (o: seq<nat>)
    requires i <= |code|
    ensures forall j :: 0 <= j < |o| ==> o[j] < i && code[o[j]].op == TRY
  {
    if i == 0 then [] else
    var o := Open(code, i - 1);
    if code[i - 1].op == TRY then o + [i - 1]
    else if code[i - 1].op == ENDTRY && o != [] then o[..|o| - 1]
    else o
  }

  /** Where a jump goes, or where a TRY's handler starts. */
  function Goal(code: seq<Instr>, i: nat): int
    requires i < |code|
  {
    i + 1 + code[i].SBx()
  }

  predicate Aims(ins: Instr) { IsJump(ins.op) || ins.op == TRY }

  /** The goal is in the code, between the same TRYs. */
  predicate Lands(code: seq<Instr>, i: nat)
    requires i < |code|
  {
    0 <= Goal(code, i) <= |code| && Open(code, Goal(code, i)) == Open(code, i)
  }

  ghost predicate Balanced(code: seq<Instr>) { forall i :: 0 <= i < |code| && Aims(code[i]) ==> Lands(code, i) }

  ghost predicate AllBalanced(ch: Chunk) { forall p :: 0 <= p < |ch.protos| ==> Balanced(ch.protos[p].code) }

  // ---- every frame, at every step ----

  /** The handlers of the TRYs at positions o. */
  function Catches(code: seq<Instr>, o: seq<nat>): (t: seq<TryFrame>)
    requires forall j :: 0 <= j < |o| ==> o[j] < |code|
    ensures |t| == |o|
  {
    seq(|o|, j requires 0 <= j < |o| => TryFrame(Goal(code, o[j]), code[o[j]].a))
  }

  ghost predicate FrameOk(ch: Chunk, f: Frame) {
    var code := Code(ch, f.proto);
    0 <= f.ip <= |code| && f.tries == Catches(code, Open(code, f.ip))
  }

  ghost predicate FramesOk(ch: Chunk, fs: seq<Frame>) { forall i :: 0 <= i < |fs| ==> FrameOk(ch, fs[i]) }

  ghost predicate VmOk(ch: Chunk, vm: VM) {
    FramesOk(ch, vm.frames) && forall k :: 0 <= k < |vm.callers| ==> FramesOk(ch, vm.callers[k].frames)
  }

  ghost predicate StateOk(ch: Chunk, s: State) { s.Running? ==> VmOk(ch, s.vm) }

  lemma NewFrameOk(ch: Chunk, proto: nat, ups: Upvals, args: seq<Value>, retReg: nat)
    ensures FrameOk(ch, NewFrame(ch, proto, ups, args, retReg))
  {
  }

  /** Registers do not matter. */
  lemma RegsOk(ch: Chunk, f: Frame, regs: Regs)
    requires FrameOk(ch, f)
    ensures FrameOk(ch, f.(regs := regs))
  {
    hide Open, Catches;
  }

  lemma TopOk(ch: Chunk, vm: VM, f: Frame)
    requires VmOk(ch, vm) && vm.frames != [] && FrameOk(ch, f)
    ensures VmOk(ch, SetTop(vm, f)) && SetTop(vm, f).frames != []
  {
    hide FrameOk;
  }

  /** The innermost open TRY was opened between the others. */
  lemma {:induction false} Innermost(code: seq<Instr>, i: nat)
    requires i <= |code| && Open(code, i) != []
    ensures var o := Open(code, i); Open(code, o[|o| - 1]) == o[..|o| - 1]
  {
    Nested(code, i, |Open(code, i)| - 1);
  }

  lemma {:induction false} Nested(code: seq<Instr>, i: nat, j: nat)
    requires i <= |code| && j < |Open(code, i)|
    ensures Open(code, Open(code, i)[j]) == Open(code, i)[..j]
    decreases i
  {
    var p, o := Open(code, i - 1), Open(code, i);
    if j < |p| {
      Nested(code, i - 1, j);
      assert o[j] == p[j] && o[..j] == p[..j];
    } else {
      assert o == p + [i - 1] && o[..j] == p;
    }
  }

  lemma CaughtOk(ch: Chunk, f: Frame, regs: Regs)
    requires AllBalanced(ch) && FrameOk(ch, f) && f.tries != []
    ensures var t := f.tries[|f.tries| - 1];
      FrameOk(ch, f.(regs := regs, ip := t.catchIp, tries := f.tries[..|f.tries| - 1]))
  {
    hide Open;
    var code := Code(ch, f.proto);
    var o := Open(code, f.ip);
    Innermost(code, f.ip);
    var p := o[|o| - 1];
    assert f.proto < |ch.protos| && Aims(code[p]);
    assert Lands(code, p);
    assert Catches(code, o)[..|o| - 1] == Catches(code, o[..|o| - 1]);
  }

  lemma {:induction false} UnwindOk(ch: Chunk, fs: seq<Frame>, msg: Text)
    requires AllBalanced(ch) && FramesOk(ch, fs)
    ensures Unwind(fs, msg).Caught? ==> FramesOk(ch, Unwind(fs, msg).frames)
    decreases |fs|
  {
    hide FrameOk, AllBalanced, FirstLine;
    if fs != [] {
      var f := fs[|fs| - 1];
      if f.tries == [] {
        UnwindOk(ch, fs[..|fs| - 1], msg);
      } else {
        var t := f.tries[|f.tries| - 1];
        CaughtOk(ch, f, f.regs[t.errReg := Str(FirstLine(msg))]);
      }
    }
  }

  lemma {:induction false} FinishOk(env: Env, ch: Chunk, vm: VM, out: Outcome)
    requires AllBalanced(ch) && VmOk(ch, vm)
    ensures StateOk(ch, Finish(env, ch, vm, out))
    decreases |vm.callers|, 1
  {
    hide AllBalanced, FramesOk, Enter, FirstLine;
    if vm.callers != [] {
      var c := vm.callers[|vm.callers| - 1];
      var vm1 := vm.(frames := c.frames, callers := vm.callers[..|vm.callers| - 1]);
      assert VmOk(ch, vm1);
      EnterOk(env, ch, vm1, c.id, c.args, c.answers + [out], c.retReg);
    }
  }

  lemma {:induction false} EnterOk(env: Env, ch: Chunk, vm: VM, id: nat, args: seq<Value>, answers: seq<Outcome>,
    retReg: nat)
    requires AllBalanced(ch) && VmOk(ch, vm)
    ensures StateOk(ch, Enter(env, ch, vm, id, args, answers, retReg))
    decreases |vm.callers|, 2
  {
    hide AllBalanced, FrameOk, Finish, Unwind, NewFrame;
    var e := CallNative(id, args, answers);
    var vm1 := vm.(trace := vm.trace + [e]);
    match env.native(vm.trace, e)
    case Return(v) =>
      if vm.frames != [] {
        var f := vm.frames[|vm.frames| - 1];
        RegsOk(ch, f, f.regs[retReg := v]);
        TopOk(ch, vm1, f.(regs := f.regs[retReg := v]));
      }
    case Fail(msg) =>
      UnwindOk(ch, vm1.frames, msg);
      if Unwind(vm1.frames, msg).Uncaught? {
        FinishOk(env, ch, vm1, Err(msg));
      }
    case CallBack(proto, ups, cargs) =>
      NewFrameOk(ch, proto, ups, cargs, 0);
  }

  lemma RaiseOk(env: Env, ch: Chunk, vm: VM, msg: Text)
    requires AllBalanced(ch) && VmOk(ch, vm)
    ensures StateOk(ch, Raise(env, ch, vm, msg))
  {
    hide AllBalanced, FramesOk, Finish, Unwind;
    UnwindOk(ch, vm.frames, msg);
    FinishOk(env, ch, vm, Err(msg));
  }

  lemma ReturnOk(env: Env, ch: Chunk, vm: VM, v: Value)
    requires AllBalanced(ch) && VmOk(ch, vm) && vm.frames != []
    ensures StateOk(ch, DoReturn(env, ch, vm, v))
  {
    hide AllBalanced, FrameOk, Finish, Release;
    var f := vm.frames[|vm.frames| - 1];
    var rest := vm.frames[..|vm.frames| - 1];
    var vm1 := vm.(frames := rest, cells := Release(vm.cells, f.ups));
    assert VmOk(ch, vm1);
    if rest == [] {
      FinishOk(env, ch, vm1, Ok(v));
    } else {
      var g := rest[|rest| - 1];
      RegsOk(ch, g, g.regs[f.retReg := v]);
      TopOk(ch, vm1, g.(regs := g.regs[f.retReg := v]));
    }
  }

  lemma PrimOk(env: Env, ch: Chunk, vm: VM, f: Frame, op: Byte, operands: seq<Value>, a: Byte)
    requires AllBalanced(ch) && VmOk(ch, vm) && vm.frames != [] && FrameOk(ch, f)
    ensures StateOk(ch, DoPrim(env, ch, vm, f, op, operands, a))
  {
    hide AllBalanced, FrameOk, FramesOk, Raise;
    var e := Prim(op, operands);
    var vm1 := vm.(trace := vm.trace + [e]);
    match env.prim(vm.trace, e)
    case Ok(v) =>
      RegsOk(ch, f, f.regs[a := v]);
      TopOk(ch, vm1, f.(regs := f.regs[a := v]));
    case Err(msg) =>
      TopOk(ch, vm1, f);
      RaiseOk(env, ch, SetTop(vm1, f), msg);
  }

  lemma CallOk(env: Env, ch: Chunk, vm: VM, f: Frame, ins: Instr)
    requires AllBalanced(ch) && VmOk(ch, vm) && vm.frames != [] && FrameOk(ch, f)
    ensures StateOk(ch, DoCall(env, ch, vm, f, ins))
  {
    hide AllBalanced, FrameOk, Raise, Enter, NewFrame, SetTop, Vm.Range;
    TopOk(ch, vm, f);
    var vm0 := SetTop(vm, f);
    var args := Vm.Range(f.regs, ins.b + 1, ins.c);
    match Get(f.regs, ins.b)
    case Native(id) => EnterOk(env, ch, vm0, id, args, [], ins.a);
    case Func(proto, ups) =>
      NewFrameOk(ch, proto, ups, args, ins.a);
      RaiseOk(env, ch, vm0, Ascii("nil func"));
    case v => RaiseOk(env, ch, vm0, Ascii("cannot call ") + TypeName(v));
  }

  lemma ConstOk(env: Env, ch: Chunk, vm: VM, f: Frame, ins: Instr, k: Constant)
    requires AllBalanced(ch) && VmOk(ch, vm) && vm.frames != [] && FrameOk(ch, f)
    ensures StateOk(ch, WithConst(env, ch, vm, f, ins, k)) && StateOk(ch, BadConst(env, ch, vm, f, ins))
  {
    hide AllBalanced, FrameOk, FramesOk, DoPrim, Finish, SetTop, Truthy, ConstText, ConstToValue;
    TopOk(ch, vm, f);
    forall regs: Regs
      ensures VmOk(ch, SetTop(vm, f.(regs := regs)))
    {
      RegsOk(ch, f, regs);
      TopOk(ch, vm, f.(regs := regs));
    }
    forall op: Byte, operands: seq<Value>, a: Byte
      ensures StateOk(ch, DoPrim(env, ch, vm, f, op, operands, a))
    {
      PrimOk(env, ch, vm, f, op, operands, a);
    }
    forall out: Outcome
      ensures StateOk(ch, Finish(env, ch, vm, out))
    {
      FinishOk(env, ch, vm, out);
    }
  }

  /** Past an instruction that is neither TRY nor ENDTRY nothing opened or closed. */
  lemma PastOk(ch: Chunk, f: Frame)
    requires FrameOk(ch, f) && f.ip < |Code(ch, f.proto)|
    requires Code(ch, f.proto)[f.ip].op != TRY && Code(ch, f.proto)[f.ip].op != ENDTRY
    ensures FrameOk(ch, f.(ip := f.ip + 1))
  {
    hide Catches;
  }

  lemma JumpOk(ch: Chunk, f: Frame)
    requires AllBalanced(ch) && FrameOk(ch, f) && f.ip < |Code(ch, f.proto)| && IsJump(Code(ch, f.proto)[f.ip].op)
    ensures FrameOk(ch, f.(ip := f.ip + 1 + Code(ch, f.proto)[f.ip].SBx()))
  {
    hide Open, Catches, Instr.SBx;
    var code := Code(ch, f.proto);
    assert f.proto < |ch.protos| && Aims(code[f.ip]);
    assert Lands(code, f.ip);
  }

  lemma TryOk(ch: Chunk, f: Frame)
    requires FrameOk(ch, f) && f.ip < |Code(ch, f.proto)| && Code(ch, f.proto)[f.ip].op == TRY
    ensures var ins := Code(ch, f.proto)[f.ip];
      FrameOk(ch, f.(ip := f.ip + 1, tries := f.tries + [TryFrame(f.ip + 1 + ins.SBx(), ins.a)]))
  {
    hide Instr.SBx;
    var code := Code(ch, f.proto);
    var o := Open(code, f.ip);
    assert Open(code, f.ip + 1) == o + [f.ip];
    assert Catches(code, o + [f.ip]) == Catches(code, o) + [TryFrame(Goal(code, f.ip), code[f.ip].a)];
  }

  lemma EndTryOk(ch: Chunk, f: Frame)
    requires FrameOk(ch, f) && f.ip < |Code(ch, f.proto)| && Code(ch, f.proto)[f.ip].op == ENDTRY
    ensures FrameOk(ch, f.(ip := f.ip + 1, tries := if f.tries == [] then [] else f.tries[..|f.tries| - 1]))
  {
    var code := Code(ch, f.proto);
    var o := Open(code, f.ip);
    if o != [] {
      assert Open(code, f.ip + 1) == o[..|o| - 1];
      assert Catches(code, o)[..|o| - 1] == Catches(code, o[..|o| - 1]);
    }
  }

  lemma OtherOk(env: Env, ch: Chunk, vm: VM, f: Frame, ins: Instr)
    requires AllBalanced(ch) && VmOk(ch, vm) && vm.frames != [] && FrameOk(ch, f) && ins.op != TRY && ins.op != ENDTRY
    ensures StateOk(ch, ExecOther(env, ch, vm, f, ins))
  {
    hide AllBalanced, FrameOk, FramesOk, Finish, Raise, DoReturn, SetTop, Cells, Vm.Range, AsStr, Instr.SBx, Instr.Bx;
    TopOk(ch, vm, f);
    forall regs: Regs
      ensures VmOk(ch, SetTop(vm, f.(regs := regs)))
    {
      RegsOk(ch, f, regs);
      TopOk(ch, vm, f.(regs := regs));
    }
    forall out: Outcome
      ensures StateOk(ch, Finish(env, ch, vm, out))
    {
      FinishOk(env, ch, vm, out);
    }
    if ins.op == RET || ins.op == RETN {
      ReturnOk(env, ch, SetTop(vm, f), if ins.op == RET then Get(f.regs, ins.a) else Null);
    }
    RaiseOk(env, ch, SetTop(vm, f), AsStr(env, vm.trace, Get(f.regs, ins.a)));
  }

  lemma {:induction false} StepOk(env: Env, ch: Chunk, s: State)
    requires AllBalanced(ch) && StateOk(ch, s)
    ensures StateOk(ch, Step(env, ch, s))
  {
    hide AllBalanced, FrameOk, Exec, Finish, Release;
    if s.Running? {
      var vm := s.vm;
      if vm.frames == [] {
        FinishOk(env, ch, vm, Ok(Null));
      } else {
        var f := vm.frames[|vm.frames| - 1];
        if f.proto >= |ch.protos| {
          FinishOk(env, ch, vm, Err(Ascii("CallClosure: nil closure")));
        } else if f.ip < 0 || f.ip >= |Code(ch, f.proto)| {
          var vm1 := vm.(cells := Release(vm.cells, f.ups));
          assert VmOk(ch, vm1);
          FinishOk(env, ch, vm1, Ok(Null));
        } else {
          ExecOk(env, ch, vm, f);
        }
      }
    }
  }

  lemma ExecOk(env: Env, ch: Chunk, vm: VM, f: Frame)
    requires AllBalanced(ch) && VmOk(ch, vm) && vm.frames != [] && f == vm.frames[|vm.frames| - 1]
    requires 0 <= f.ip < |Code(ch, f.proto)|
    ensures StateOk(ch, Exec(env, ch, vm, f.(ip := f.ip + 1), Code(ch, f.proto)[f.ip]))
  {
    hide AllBalanced, FrameOk, DoPrim, DoCall, WithConst, BadConst, SetTop, Operands, Taken, Instr.SBx;
    var ins := Code(ch, f.proto)[f.ip];
    var g := f.(ip := f.ip + 1);
    if ins.op == TRY {
      TryOk(ch, f);
      TopOk(ch, vm, g.(tries := f.tries + [TryFrame(f.ip + 1 + ins.SBx(), ins.a)]));
    } else if ins.op == ENDTRY {
      EndTryOk(ch, f);
      TopOk(ch, vm, g.(tries := if f.tries == [] then [] else f.tries[..|f.tries| - 1]));
    } else {
      hide ExecOther;
      PastOk(ch, f);
      if IsPrim(ins.op) {
        PrimOk(env, ch, vm, g, ins.op, Operands(g.regs, ins), ins.a);
      } else if IsJump(ins.op) {
        JumpOk(ch, f);
        TopOk(ch, vm, g);
        TopOk(ch, vm, g.(ip := g.ip + ins.SBx()));
      } else if UsesConst(ins.op) {
        if ConstIndex(ins) < |ch.consts| {
          ConstOk(env, ch, vm, g, ins, ch.consts[ConstIndex(ins)]);
        } else {
          ConstOk(env, ch, vm, g, ins, CNull);
        }
      } else if ins.op == CALL {
        CallOk(env, ch, vm, g, ins);
      } else {
        OtherOk(env, ch, vm, g, ins);
      }
    }
  }

  lemma {:induction false} RunOk(env: Env, ch: Chunk, s: State, n: nat)
    requires AllBalanced(ch) && StateOk(ch, s)
    ensures StateOk(ch, Run(env, ch, s, n))
    decreases n
  {
    hide AllBalanced, StateOk, Step;
    if n > 0 {
      StepOk(env, ch, s);
      RunOk(env, ch, Step(env, ch, s), n - 1);
    }
  }

  lemma StartOk(env: Env, ch: Chunk, arg: Value, globals: map<Text, Value>)
    ensures StateOk(ch, Start(env, ch, arg, globals))
  {
    hide FrameOk, NewFrame, BindNames;
    if 0 <= ch.mainIndex < |ch.protos| {
      NewFrameOk(ch, ch.mainIndex, NoUpvals, [arg], 0);
    }
  }

  /** No TRY is open around any frame's ip from position n on. */
  ghost predicate NoneOpen(ch: Chunk, fs: seq<Frame>, n: nat)
    requires FramesOk(ch, fs)
  {
    forall i :: n <= i < |fs| ==> Open(Code(ch, fs[i].proto), fs[i].ip) == []
  }

  /**
   Where the text says an error must be caught: in frame n, the innermost one with a TRY open around its ip, at the
   handler of the innermost of those TRYs, with the error's first line in that handler's register.  If none, nowhere.
   */
  ghost predicate CaughtAt(ch: Chunk, fs: seq<Frame>, msg: Text, n: nat)
    requires FramesOk(ch, fs)
  {
    if Unwind(fs, msg).Uncaught? then NoneOpen(ch, fs, 0)
    else
      && n < |fs| && NoneOpen(ch, fs, n + 1)
      && var f, code := fs[n], Code(ch, fs[n].proto);
         var o := Open(code, f.ip);
      && o != [] && |Unwind(fs, msg).frames| == n + 1
      && var g, inner := Unwind(fs, msg).frames[n], o[|o| - 1];
         g.ip == Goal(code, inner) && g.regs == f.regs[code[inner].a as int := Str(FirstLine(msg))]
  }

  lemma {:induction false} ResumesInnermost(ch: Chunk, fs: seq<Frame>, msg: Text) returns (n: nat)
    requires FramesOk(ch, fs)
    ensures CaughtAt(ch, fs, msg, n)
    decreases |fs|
  {
    hide Open, FirstLine, Goal;
    n := 0;
    if fs != [] {
      var f := fs[|fs| - 1];
      if f.tries == [] {
        n := ResumesInnermost(ch, fs[..|fs| - 1], msg);
      } else {
        n := |fs| - 1;
      }
    }
  }
}

/** Compiled code is balanced: what the emitter and the back-patches guarantee about jumps and TRYs. */
module HandlersCompiled {
  import opened Bytecode
  import opened Ast
  import opened Compiler
  import opened CompilerShape
  import opened StmtShape
  import opened Handlers
  import Vm

  // ---- pieces of code ----

  /** Extending code leaves what is open in it. */
  lemma {:induction false} OpenPrefix(a: seq<Instr>, b: seq<Instr>, i: nat)
    requires a <= b && i <= |a|
    ensures Open(b, i) == Open(a, i)
    decreases i
  {
    if i > 0 {
      OpenPrefix(a, b, i - 1);
      assert b[i - 1] == a[i - 1];
    }
  }

  lemma {:induction false} OpenOps(a: seq<Instr>, b: seq<Instr>, i: nat)
    requires |a| == |b| && i <= |a| && forall j :: 0 <= j < |a| ==> a[j].op == b[j].op
    ensures Open(b, i) == Open(a, i)
    decreases i
  {
    if i > 0 {
      OpenOps(a, b, i - 1);
    }
  }

  /**
   From a to b: b is a with more code.  All is closed again at the end, nothing of a is closed on the way, every jump
   in the new code lands, but for those at the positions `holes`, which stand between the TRYs of a.
   */
  ghost predicate Tidy(a: seq<Instr>, b: seq<Instr>, holes: set<int>) {
    && a <= b
    && Open(b, |b|) == Open(b, |a|)
    && (forall i :: |a| <= i <= |b| ==> Open(b, |a|) <= Open(b, i))
    && (forall i :: |a| <= i < |b| && Aims(b[i]) && i !in holes ==> Lands(b, i))
    && (forall i :: i in holes ==> |a| <= i < |b| && Open(b, i) == Open(b, |a|))
  }

  lemma TidyNone(a: seq<Instr>)
    ensures Tidy(a, a, {})
  {
  }

  lemma TidyOne(a: seq<Instr>, ins: Instr)
    requires ins.op != TRY && ins.op != ENDTRY
    ensures Tidy(a, a + [ins], if Aims(ins) then {|a|} else {})
  {
    var b := a + [ins];
    assert Open(b, |a| + 1) == Open(b, |a|);
  }

  lemma LandsLater(b: seq<Instr>, c: seq<Instr>, i: nat)
    requires b <= c && i < |b| && Lands(b, i)
    ensures Lands(c, i)
  {
    assert c[i] == b[i];
    OpenPrefix(b, c, i);
    OpenPrefix(b, c, Goal(b, i));
  }

  lemma TidyTrans(a: seq<Instr>, b: seq<Instr>, c: seq<Instr>, h: set<int>, g: set<int>)
    requires Tidy(a, b, h) && Tidy(b, c, g)
    ensures Tidy(a, c, h + g)
  {
    hide Lands, Goal, Aims;
    OpenPrefix(b, c, |a|);
    OpenPrefix(b, c, |b|);
    forall i | |a| <= i <= |c|
      ensures Open(c, |a|) <= Open(c, i)
    {
      if i <= |b| {
        OpenPrefix(b, c, i);
      }
    }
    forall i | |a| <= i < |c| && Aims(c[i]) && i !in h + g
      ensures Lands(c, i)
    {
      if i < |b| {
        assert c[i] == b[i];
        LandsLater(b, c, i);
      }
    }
    forall i | i in h
      ensures Open(c, i) == Open(c, |a|)
    {
      OpenPrefix(b, c, i);
    }
  }

  lemma SameAims(x: Instr, y: Instr)
    requires x.op == y.op
    ensures Aims(x) == Aims(y)
  {
  }

  lemma AllOpen(b: seq<Instr>, c: seq<Instr>)
    requires |c| == |b| && forall i :: 0 <= i < |b| ==> c[i].op == b[i].op
    ensures forall i: nat :: i <= |b| ==> Open(c, i) == Open(b, i)
  {
    hide Open;
    forall i: nat | i <= |b|
      ensures Open(c, i) == Open(b, i)
    {
      OpenOps(b, c, i);
    }
  }

  /** All the jumps at ips now go to t, and nothing else changed: their holes are filled, those at h stay. */
  lemma TidySome(a: seq<Instr>, b: seq<Instr>, c: seq<Instr>, ips: set<int>, h: set<int>, t: nat)
    requires Tidy(a, b, ips + h) && |c| == |b| && t <= |b| && Open(b, t) == Open(b, |a|)
    requires forall i :: 0 <= i < |b| ==> c[i].op == b[i].op
    requires forall i :: 0 <= i < |b| && i !in ips ==> c[i] == b[i]
    requires forall i :: i in ips ==> i + 1 + c[i].SBx() == t
    ensures Tidy(a, c, h)
  {
    hide Instr.SBx, Aims, Open, Lands, Goal;
    AllOpen(b, c);
    SomeLands(a, b, c, ips, h, t);
    assert a <= c;
    forall i | |a| <= i <= |c|
      ensures Open(c, |a|) <= Open(c, i)
    {
      assert Open(b, |a|) <= Open(b, i);
    }
    forall i | i in h
      ensures |a| <= i < |c| && Open(c, i) == Open(c, |a|)
    {
      assert i in ips + h;
    }
  }

  lemma SomeLands(a: seq<Instr>, b: seq<Instr>, c: seq<Instr>, ips: set<int>, h: set<int>, t: nat)
    requires Tidy(a, b, ips + h) && |c| == |b| && t <= |b| && Open(b, t) == Open(b, |a|)
    requires forall i :: 0 <= i < |b| ==> c[i].op == b[i].op
    requires forall i :: 0 <= i < |b| && i !in ips ==> c[i] == b[i]
    requires forall i :: i in ips ==> i + 1 + c[i].SBx() == t
    ensures forall i :: |a| <= i < |c| && Aims(c[i]) && i !in h ==> Lands(c, i)
  {
    hide Instr.SBx, Aims, Open, Lands, Goal, Tidy;
    AllOpen(b, c);
    forall i | |a| <= i < |c| && Aims(c[i]) && i !in h
      ensures Lands(c, i)
    {
      SameAims(b[i], c[i]);
      if i !in ips {
        TidyLands(a, b, ips + h, i);
        StillLands(b, c, i);
      } else {
        TidyHole(a, b, ips + h, i);
        NowLands(b, c, i, t);
      }
    }
  }

  lemma TidyLands(a: seq<Instr>, b: seq<Instr>, h: set<int>, i: nat)
    requires Tidy(a, b, h) && |a| <= i < |b| && Aims(b[i]) && i !in h
    ensures Lands(b, i)
  {
    hide Open, Lands, Aims;
  }

  lemma TidyHole(a: seq<Instr>, b: seq<Instr>, h: set<int>, i: int)
    requires Tidy(a, b, h) && i in h
    ensures |a| <= i < |b| && Open(b, i) == Open(b, |a|)
  {
    hide Open, Lands, Aims;
  }

  lemma StillLands(b: seq<Instr>, c: seq<Instr>, i: nat)
    requires |c| == |b| && (forall j: nat :: j <= |b| ==> Open(c, j) == Open(b, j)) && i < |b| && c[i] == b[i]
      && Lands(b, i)
    ensures Lands(c, i)
  {
    hide Open, Instr.SBx;
  }

  lemma NowLands(b: seq<Instr>, c: seq<Instr>, i: nat, t: nat)
    requires |c| == |b| && (forall j: nat :: j <= |b| ==> Open(c, j) == Open(b, j)) && i < |b| && t <= |b|
    requires i + 1 + c[i].SBx() == t && Open(b, i) == Open(b, t)
    ensures Lands(c, i)
  {
    hide Open, Instr.SBx;
  }

  /** Filling a hole with a target between the same TRYs. */
  lemma TidyPut(a: seq<Instr>, b: seq<Instr>, h: set<int>, ip: int, ins: Instr)
    requires Tidy(a, b, h) && ip in h && ins.op == b[ip].op
    requires 0 <= ip + 1 + ins.SBx() <= |b| && Open(b, ip + 1 + ins.SBx()) == Open(b, |a|)
    ensures Tidy(a, b[ip := ins], h - {ip})
  {
    hide Tidy, Open, Instr.SBx;
    TidyHole(a, b, h, ip);
    assert {ip} + (h - {ip}) == h;
    TidySome(a, b, b[ip := ins], {ip}, h - {ip}, ip + 1 + ins.SBx());
  }

  lemma Aimed(op: Byte, a: Byte, ip: int, t: int)
    requires -0x8000 <= t - ip - 1 < 0x8000
    ensures var ins := MakeAsBx(op, a, ToI16(t - ip - 1)); ins.op == op && ip + 1 + ins.SBx() == t
  {
    SBxOf(op, a, ToI16(t - ip - 1));
    hide MakeAsBx, Instr.SBx;
  }

  /** PatchSbx fills the hole. */
  lemma TidyPatch(a: seq<Instr>, st: CS, h: set<int>, ip: int, t: int)
    requires Tidy(a, st.code, h) && ip in h && 0 <= t <= |st.code| && Open(st.code, t) == Open(st.code, |a|)
      && |st.code| < 0x8000
    ensures Tidy(a, PatchSbx(st, ip, t - ip - 1).code, h - {ip})
    ensures PatchSbx(st, ip, t - ip - 1).loops == st.loops && |PatchSbx(st, ip, t - ip - 1).code| == |st.code|
  {
    hide MakeAsBx, Open, Instr.SBx, ToI16;
    Aimed(st.code[ip].op, st.code[ip].a, ip, t);
    TidyPut(a, st.code, h, ip, MakeAsBx(st.code[ip].op, st.code[ip].a, ToI16(t - ip - 1)));
  }

  // ---- expressions: no TRY, and jumps that stay inside ----

  ghost predicate Plain(a: seq<Instr>, b: seq<Instr>, h: set<int>) {
    && a <= b
    && (forall i :: |a| <= i < |b| ==> b[i].op != TRY && b[i].op != ENDTRY)
    && (forall i :: |a| <= i < |b| && Vm.IsJump(b[i].op) && i !in h ==> |a| <= Goal(b, i) <= |b|)
    && (forall i :: i in h ==> |a| <= i < |b|)
  }

  lemma {:induction false} PlainOpen(a: seq<Instr>, b: seq<Instr>, h: set<int>, i: nat)
    requires Plain(a, b, h) && |a| <= i <= |b|
    ensures Open(b, i) == Open(b, |a|)
    decreases i
  {
    hide Goal;
    if i > |a| {
      PlainOpen(a, b, h, i - 1);
    }
  }

  lemma PlainTidy(a: seq<Instr>, b: seq<Instr>, h: set<int>)
    requires Plain(a, b, h)
    ensures Tidy(a, b, h)
  {
    forall i | |a| <= i <= |b|
      ensures Open(b, i) == Open(b, |a|)
    {
      PlainOpen(a, b, h, i);
    }
    hide Open, Instr.SBx;
  }

  lemma PlainNone(a: seq<Instr>)
    ensures Plain(a, a, {})
  {
  }

  lemma PlainTrans(a: seq<Instr>, b: seq<Instr>, c: seq<Instr>, h: set<int>, g: set<int>)
    requires Plain(a, b, h) && Plain(b, c, g)
    ensures Plain(a, c, h + g)
  {
    hide Instr.SBx;
    forall i | |a| <= i < |b|
      ensures c[i] == b[i]
    {
    }
  }

  predicate Quiet(ins: Instr) { ins.op != TRY && ins.op != ENDTRY && !Vm.IsJump(ins.op) }

  lemma PlainOne(a: seq<Instr>, ins: Instr)
    requires ins.op != TRY && ins.op != ENDTRY
    ensures Plain(a, a + [ins], if Quiet(ins) then {} else {|a|})
  {
    hide Goal;
  }

  lemma PlainEmit(a: seq<Instr>, st: CS, h: set<int>, ins: Instr)
    requires Plain(a, st.code, h) && Quiet(ins)
    ensures Plain(a, Emit(st, ins).code, h)
  {
    hide Plain;
    PlainOne(st.code, ins);
    PlainTrans(a, st.code, st.code + [ins], h, {});
    assert h + {} == h;
  }

  lemma PlainHole(a: seq<Instr>, st: CS, h: set<int>, ins: Instr)
    requires Plain(a, st.code, h) && Vm.IsJump(ins.op)
    ensures Plain(a, Emit(st, ins).code, h + {|st.code|})
  {
    hide Plain;
    PlainOne(st.code, ins);
    PlainTrans(a, st.code, st.code + [ins], h, {|st.code|});
  }

  lemma PlainPut(a: seq<Instr>, b: seq<Instr>, h: set<int>, ip: int, ins: Instr)
    requires Plain(a, b, h) && ip in h && ins.op == b[ip].op && |a| <= ip + 1 + ins.SBx() <= |b|
    ensures Plain(a, b[ip := ins], h - {ip})
  {
    hide Instr.SBx;
  }

  lemma PlainPatch(a: seq<Instr>, st: CS, h: set<int>, ip: int, t: int)
    requires Plain(a, st.code, h) && ip in h && |a| <= t <= |st.code| < 0x8000
    ensures Plain(a, PatchSbx(st, ip, t - ip - 1).code, h - {ip})
    ensures |PatchSbx(st, ip, t - ip - 1).code| == |st.code|
  {
    hide MakeAsBx, Instr.SBx, ToI16;
    Aimed(st.code[ip].op, st.code[ip].a, ip, t);
    PlainPut(a, st.code, h, ip, MakeAsBx(st.code[ip].op, st.code[ip].a, ToI16(t - ip - 1)));
  }

  lemma PlainLen(a: seq<Instr>, b: seq<Instr>, h: set<int>)
    requires Plain(a, b, h)
    ensures a <= b
  {
  }

  lemma SameRegs(st: CS, r: Byte)
    ensures Alloc(st).0.code == st.code && Free(st, r).code == st.code && Alloc(st).0.loops == st.loops
      && Free(st, r).loops == st.loops
  {
  }

  /** A short name for code compiled from st to c. */
  ghost predicate Calm(st: CS, c: CS) { Plain(st.code, c.code, {}) }

  lemma CalmTrans(a: CS, b: CS, c: CS)
    requires Calm(a, b) && Calm(b, c)
    ensures Calm(a, c)
  {
    PlainTrans(a.code, b.code, c.code, {}, {});
    hide Plain;
    var none: set<int> := {};
    assert none + none == none;
  }

  lemma CalmLen(a: CS, b: CS)
    requires Calm(a, b)
    ensures |a.code| <= |b.code|
  {
  }

  lemma CalmSame(a: CS, b: CS)
    requires a.code == b.code
    ensures Calm(a, b)
  {
    PlainNone(a.code);
    hide Plain;
  }

  lemma CalmEmit(a: CS, st: CS, ins: Instr)
    requires Calm(a, st) && Quiet(ins)
    ensures Calm(a, Emit(st, ins))
  {
    PlainEmit(a.code, st, {}, ins);
    hide Plain;
  }

  lemma CalmAlloc(a: CS, st: CS)
    requires Calm(a, st)
    ensures Calm(a, Alloc(st).0)
  {
    hide Plain;
    SameRegs(st, 0);
  }

  lemma CalmFree(a: CS, st: CS, r: Byte)
    requires Calm(a, st)
    ensures Calm(a, Free(st, r))
  {
    hide Plain;
    SameRegs(st, r);
  }

  lemma CalmIntern(a: CS, st: CS, k: Constant)
    requires Calm(a, st)
    ensures Calm(a, Intern(st, k).0)
  {
    hide Plain;
  }

  lemma CalmFreeRun(a: CS, st: CS, base: Byte, n: nat)
    requires Calm(a, st)
    ensures Calm(a, FreeRun(st, base, n))
  {
    hide Plain, FreeRun;
    FreeRunCode(st, base, n);
  }

  lemma CalmLiteral(st: CS, lit: Literal, dest: Byte)
    ensures Calm(st, CompileLiteral(st, lit, dest))
  {
    hide Calm, MakeAsBx, MakeABx, Intern;
    CalmSame(st, st);
    match lit
    case LNull => CalmEmit(st, st, MakeABC(LOADN, dest, 0, 0));
    case LBool(b) => CalmEmit(st, st, MakeABC(LOADB, dest, if b then 1 else 0, 0));
    case LInt(i) =>
      if -0x8000 <= i < 0x8000 {
        CalmEmit(st, st, MakeAsBx(LOADI, dest, i));
      } else {
        CalmConst(st, CInt(i), dest);
      }
    case LFloat(bits) => CalmConst(st, CFloat(bits), dest);
    case LStr(s) => CalmConst(st, CStr(s), dest);
  }

  lemma CalmConst(st: CS, k: Constant, dest: Byte)
    ensures Calm(st, LoadConst(st, k, dest))
  {
    hide Calm, MakeABx, Intern;
    var (st1, ki) := Intern(st, k);
    CalmSame(st, st);
    CalmIntern(st, st, k);
    CalmEmit(st, st1, MakeABx(LOADK, dest, ki % 0x1_0000));
  }

  lemma CalmIdent(funcs: seq<FuncDecl>, st: CS, name: Text, dest: Byte)
    ensures Calm(st, CompileIdent(funcs, st, name, dest))
  {
    hide Calm, MakeABx, Intern, FuncIndex;
    CalmSame(st, st);
    if name in st.locals {
      CalmEmit(st, st, MakeABC(MOVE, dest, st.locals[name], 0));
    } else if FuncIndex(funcs, name) < |funcs| {
      CalmEmit(st, st, MakeABx(MAKEFN, dest, FuncIndex(funcs, name) % 0x1_0000));
    } else {
      var (st1, ki) := Intern(st, CStr(name));
      CalmIntern(st, st, CStr(name));
      CalmEmit(st, st1, MakeABx(LOADG, dest, ki % 0x1_0000));
    }
  }

  /** A key that does not fit goes through a register. */
  lemma CalmWide(st: CS, ki: nat, ins: (Byte) -> Instr)
    requires forall r :: Quiet(ins(r))
    ensures var (st2, kr) := Alloc(st); Calm(st, Free(Emit(Emit(st2, MakeABx(LOADK, kr, ki % 0x1_0000)), ins(kr)), kr))
  {
    hide Calm, MakeABx, Alloc, Free, Emit;
    var (st2, kr) := Alloc(st);
    CalmSame(st, st);
    CalmAlloc(st, st);
    CalmEmit(st, st2, MakeABx(LOADK, kr, ki % 0x1_0000));
    CalmEmit(st, Emit(st2, MakeABx(LOADK, kr, ki % 0x1_0000)), ins(kr));
    CalmFree(st, Emit(Emit(st2, MakeABx(LOADK, kr, ki % 0x1_0000)), ins(kr)), kr);
  }

  lemma CalmGetField(st: CS, name: Text, dest: Byte, obj: Byte)
    ensures Calm(st, EmitGetField(st, name, dest, obj))
  {
    hide Calm, MakeABx, Alloc, Free, Intern;
    var (st0, ki) := Intern(st, CStr(name));
    var st1 := NoteKey(st0, ki);
    CalmSame(st, st);
    CalmIntern(st, st, CStr(name));
    CalmSame(st0, st1);
    CalmTrans(st, st0, st1);
    if ki <= 255 {
      CalmEmit(st, st1, MakeABC(GETK, dest, obj, ki));
    } else {
      CalmWide(st1, ki, (r: Byte) => MakeABC(GETI, dest, obj, r));
      CalmTrans(st, st1, EmitGetField(st, name, dest, obj));
    }
  }

  lemma CalmSetKey(st: CS, ki: nat, obj: Byte, val: Byte)
    ensures Calm(st, EmitSetKey(st, ki, obj, val))
  {
    hide Calm, MakeABx, Alloc, Free;
    var st1 := NoteKey(st, ki);
    CalmSame(st, st1);
    if ki <= 255 {
      CalmEmit(st, st1, MakeABC(SETK, obj, ki, val));
    } else {
      CalmWide(st1, ki, (r: Byte) => MakeABC(SETI, obj, r, val));
      CalmTrans(st, st1, EmitSetKey(st, ki, obj, val));
    }
  }

  lemma UnQuiet(op: UnOp, dest: Byte, tmp: Byte)
    ensures Quiet(MakeABC(UnOpcode(op), dest, tmp, 0))
  {
  }

  lemma BinQuiet(op: BinOp, dest: Byte, l: Byte, r: Byte)
    ensures Quiet(MakeABC(BinOpcode(op), dest, l, r))
  {
  }

  lemma {:induction false} CalmExpr(funcs: seq<FuncDecl>, st: CS, e: Expr, dest: Byte)
    requires |CompileExpr(funcs, st, e, dest).code| < 0x8000
    ensures Calm(st, CompileExpr(funcs, st, e, dest))
    decreases e, 2
  {
    hide Calm, CompileBinary, CompileTernary, CompileCall, CompileArray, CompileEntries, CompileLiteral, CompileIdent,
      EmitGetField, Alloc, Free;
    match e
    case Lit(lit) => CalmLiteral(st, lit, dest);
    case Ident(name) => CalmIdent(funcs, st, name, dest);
    case Unary(op, x) =>
      var (st1, tmp) := Alloc(st);
      var st2 := CompileExpr(funcs, st1, x, tmp);
      UnQuiet(op, dest, tmp);
      SameRegs(Emit(st2, MakeABC(UnOpcode(op), dest, tmp, 0)), tmp);
      CalmExpr(funcs, st1, x, tmp);
      CalmScoped(st, st1, st2, tmp, MakeABC(UnOpcode(op), dest, tmp, 0));
    case Binary(_, _, _) => CalmBinary(funcs, st, e, dest);
    case Ternary(_, _, _) => CalmTernary(funcs, st, e, dest);
    case Call(_, _) => CalmCall(funcs, st, e, dest);
    case Index(x, i) => CalmIndex(funcs, st, x, i, dest);
    case Field(x, name) =>
      var (st1, obj) := Alloc(st);
      var st2 := CompileExpr(funcs, st1, x, obj);
      var st3 := EmitGetField(st2, name, dest, obj);
      SameRegs(st3, obj);
      CalmGetField(st2, name, dest, obj);
      CalmLen(st2, st3);
      CalmExpr(funcs, st1, x, obj);
      CalmTrans(st1, st2, st3);
      CalmAlloc2(st, st3);
      CalmFree(st, st3, obj);
    case ArrayLit(_) => CalmArray(funcs, st, e, dest);
    case MapLit(entries) =>
      var st1 := Emit(st, MakeABC(NEWMAP, dest, 0, 0));
      CalmSame(st, st);
      CalmEmit(st, st, MakeABC(NEWMAP, dest, 0, 0));
      CalmEntries(funcs, st1, entries, dest);
      CalmTrans(st, st1, CompileEntries(funcs, st1, entries, dest));
  }

  lemma CalmAlloc2(st: CS, c: CS)
    requires Calm(Alloc(st).0, c)
    ensures Calm(st, c)
  {
    hide Plain;
    SameRegs(st, 0);
  }

  /** A register taken before, one instruction after, the register given back. */
  lemma CalmScoped(st: CS, st1: CS, st2: CS, r: Byte, ins: Instr)
    requires (st1, r) == Alloc(st) && Calm(st1, st2) && Quiet(ins)
    ensures Calm(st, Free(Emit(st2, ins), r))
  {
    hide Calm, Alloc, Free, Emit;
    CalmEmit(st1, st2, ins);
    CalmAlloc2(st, Emit(st2, ins));
    CalmFree(st, Emit(st2, ins), r);
  }

  /** Two operands into two registers, one instruction. */
  lemma CalmScoped2(st: CS, st1: CS, st2: CS, st3: CS, st4: CS, r: Byte, q: Byte, ins: Instr)
    requires st1 == Alloc(st).0 && Calm(st1, st2) && st3.code == st2.code && Calm(st3, st4) && Quiet(ins)
    ensures Calm(st, Free(Free(Emit(st4, ins), r), q))
  {
    hide Calm, Alloc, Free, Emit;
    CalmSame(st2, st3);
    CalmTrans(st1, st2, st3);
    CalmTrans(st1, st3, st4);
    CalmEmit(st1, st4, ins);
    CalmAlloc2(st, Emit(st4, ins));
    CalmFree(st, Emit(st4, ins), r);
    CalmFree(st, Free(Emit(st4, ins), r), q);
  }

  lemma {:induction false} CalmIndex(funcs: seq<FuncDecl>, st: CS, x: Expr, i: Expr, dest: Byte)
    requires |CompileExpr(funcs, st, Index(x, i), dest).code| < 0x8000
    ensures Calm(st, CompileExpr(funcs, st, Index(x, i), dest))
    decreases Index(x, i), 1
  {
    hide Calm, Alloc, Free;
    var (st1, obj) := Alloc(st);
    var st2 := CompileExpr(funcs, st1, x, obj);
    var (st3, idx) := Alloc(st2);
    var st4 := CompileExpr(funcs, st3, i, idx);
    var ins := MakeABC(GETI, dest, obj, idx);
    SameRegs(st2, 0);
    SameRegs(Emit(st4, ins), obj);
    SameRegs(Free(Emit(st4, ins), obj), idx);
    assert CompileExpr(funcs, st, Index(x, i), dest) == Free(Free(Emit(st4, ins), obj), idx);
    hide CompileExpr;
    CalmExpr(funcs, st3, i, idx);
    CalmLen(st3, st4);
    CalmExpr(funcs, st1, x, obj);
    CalmScoped2(st, st1, st2, st3, st4, obj, idx, ins);
  }

  lemma {:induction false} CalmBinary(funcs: seq<FuncDecl>, st: CS, e: Expr, dest: Byte)
    requires e.Binary? && |CompileBinary(funcs, st, e, dest).code| < 0x8000
    ensures Calm(st, CompileBinary(funcs, st, e, dest))
    decreases e, 0
  {
    hide Calm, Alloc, Free, CompileExpr, MakeAsBx, Plain;
    if e.op == AndAnd || e.op == OrOr {
      var st1 := CompileExpr(funcs, st, e.left, dest);
      var j := MakeAsBx(if e.op == AndAnd then JF else JT, dest, 0);
      var sj := Emit(st1, j);
      var st2 := CompileExpr(funcs, sj, e.right, dest);
      assert CompileBinary(funcs, st, e, dest) == PatchSbx(st2, |st1.code|, |st2.code| - |st1.code| - 1);
      PatchLen(st2, |st1.code|, |st2.code| - |st1.code| - 1);
      hide PatchSbx;
      CalmExpr(funcs, sj, e.right, dest);
      CalmLen(sj, st2);
      CalmExpr(funcs, st, e.left, dest);
      LogicCalm(st, st1, j, st2);
    } else {
      var (st1, lr) := Alloc(st);
      var (st2, rr) := Alloc(st1);
      var st3 := CompileExpr(funcs, st2, e.left, lr);
      var st4 := CompileExpr(funcs, st3, e.right, rr);
      var ins := MakeABC(BinOpcode(e.op), dest, lr, rr);
      SameRegs(st, 0);
      SameRegs(st1, 0);
      SameRegs(Emit(st4, ins), lr);
      SameRegs(Free(Emit(st4, ins), lr), rr);
      CalmExpr(funcs, st3, e.right, rr);
      CalmLen(st3, st4);
      CalmExpr(funcs, st2, e.left, lr);
      BinQuiet(e.op, dest, lr, rr);
      CalmFrom(st2, st1, st3);
      CalmScoped2(st, st1, st3, st3, st4, lr, rr, ins);
    }
  }

  lemma CalmFrom(a: CS, b: CS, c: CS)
    requires Calm(a, c) && a.code == b.code
    ensures Calm(b, c)
  {
  }

  lemma PatchLen(st: CS, ip: int, off: int)
    ensures |PatchSbx(st, ip, off).code| == |st.code| && PatchSbx(st, ip, off).loops == st.loops
  {
  }

  lemma LogicCalm(st: CS, st1: CS, j: Instr, st2: CS)
    requires Calm(st, st1) && Vm.IsJump(j.op) && Calm(Emit(st1, j), st2) && |st2.code| < 0x8000
    ensures Calm(st, PatchSbx(st2, |st1.code|, |st2.code| - |st1.code| - 1))
  {
    hide Plain, PatchSbx;
    PlainHole(st.code, st1, {}, j);
    PlainTrans(st.code, Emit(st1, j).code, st2.code, {} + {|st1.code|}, {});
    PlainLen(st.code, st2.code, {} + {|st1.code|} + {});
    PlainPatch(st.code, st2, {} + {|st1.code|} + {}, |st1.code|, |st2.code|);
    assert {} + {|st1.code|} + {} - {|st1.code|} == {};
  }

  /** A condition and the jump over what it guards, which is a hole. */
  lemma {:induction false} PlainCondJump(funcs: seq<FuncDecl>, st: CS, c: Expr)
    requires |CondJump(funcs, st, c).code| < 0x8000
    ensures var st1 := CondJump(funcs, st, c);
      |st.code| < |st1.code| && Plain(st.code, st1.code, {|st1.code| - 1}) && st1.loops == st.loops
    decreases c, 3
  {
    hide Calm, Alloc, Free, CompileExpr, MakeAsBx, Plain;
    var (st1, cr) := Alloc(st);
    var st2 := CompileExpr(funcs, st1, c, cr);
    var j := MakeAsBx(JF, cr, 0);
    assert CondJump(funcs, st, c) == Free(Emit(st2, j), cr);
    SameRegs(st, 0);
    SameRegs(Emit(st2, j), cr);
    CalmExpr(funcs, st1, c, cr);
    CalmLen(st1, st2);
    CalmPlain(st1, st2);
    ShapeExpr(funcs, st1, c, cr);
    ShapeLoops(st1, st2);
    hide Shape;
    PlainHole(st.code, st2, {}, j);
    assert {} + {|st2.code|} == {|st2.code|};
  }

  lemma CalmPlain(a: CS, b: CS)
    ensures Calm(a, b) <==> Plain(a.code, b.code, {})
  {
  }

  /** IfJoin closes the first branch: one hole filled, one made. */
  lemma PlainJoin(a: seq<Instr>, st1: CS, st2: CS)
    requires |a| < |st1.code| && Plain(a, st1.code, {|st1.code| - 1}) && Plain(st1.code, st2.code, {})
      && |st2.code| + 1 < 0x8000
    ensures Plain(a, IfJoin(st1, st2).code, {|st2.code|}) && |IfJoin(st1, st2).code| == |st2.code| + 1
  {
    hide Plain, MakeAsBx;
    var j := MakeAsBx(JMP, 0, 0);
    var h := {|st1.code| - 1};
    PlainTrans(a, st1.code, st2.code, h, {});
    PlainLen(st1.code, st2.code, {});
    PlainLen(a, st1.code, h);
    PlainHole(a, st2, h + {}, j);
    var c := Emit(st2, j);
    assert IfJoin(st1, st2) == PatchSbx(c, |st1.code| - 1, |st2.code| + 1 - |st1.code|);
    hide IfJoin, PatchSbx;
    PlainPatch(a, c, h + {} + {|st2.code|}, |st1.code| - 1, |st2.code| + 1);
    assert h + {} + {|st2.code|} - {|st1.code| - 1} == {|st2.code|};
  }

  lemma {:induction false} CalmTernary(funcs: seq<FuncDecl>, st: CS, e: Expr, dest: Byte)
    requires e.Ternary? && |CompileTernary(funcs, st, e, dest).code| < 0x8000
    ensures Calm(st, CompileTernary(funcs, st, e, dest))
    decreases e, 1
  {
    hide Calm, CompileExpr, CondJump, IfJoin, Plain;
    var st1 := CondJump(funcs, st, e.cond);
    var st2 := CompileExpr(funcs, st1, e.thn, dest);
    var st3 := IfJoin(st1, st2);
    var st4 := CompileExpr(funcs, st3, e.els, dest);
    assert TernaryFront(funcs, st, e, dest) == st3;
    assert CompileTernary(funcs, st, e, dest) == PatchSbx(st4, |st3.code| - 1, |st4.code| - |st3.code|);
    PatchLen(st4, |st3.code| - 1, |st4.code| - |st3.code|);
    hide PatchSbx;
    CalmExpr(funcs, st3, e.els, dest);
    CalmLen(st3, st4);
    JoinPending2(st1, st2);
    CalmExpr(funcs, st1, e.thn, dest);
    CalmLen(st1, st2);
    PlainCondJump(funcs, st, e.cond);
    CalmPlain(st1, st2);
    CalmPlain(st3, st4);
    PlainJoin(st.code, st1, st2);
    PlainTrans(st.code, st3.code, st4.code, {|st2.code|}, {});
    PlainLen(st.code, st3.code, {|st2.code|});
    PlainPatch(st.code, st4, {|st2.code|} + {}, |st3.code| - 1, |st4.code|);
    assert {|st2.code|} + {} - {|st3.code| - 1} == {};
    CalmPlain(st, PatchSbx(st4, |st3.code| - 1, |st4.code| - |st3.code|));
  }

  lemma JoinPending2(st1: CS, st2: CS)
    ensures |IfJoin(st1, st2).code| == |st2.code| + 1 && IfJoin(st1, st2).loops == st2.loops
  {
    hide MakeAsBx;
  }

  lemma {:induction false} CalmCall(funcs: seq<FuncDecl>, st: CS, e: Expr, dest: Byte)
    requires e.Call? && |CompileCall(funcs, st, e, dest).code| < 0x8000
    ensures Calm(st, CompileCall(funcs, st, e, dest))
    decreases e, 0
  {
    hide Calm, CompileExpr, CompileList, FreeRun, Plain;
    var n := |e.args|;
    var base := st.next % 0x100;
    var st1 := NoteRegs(Reserve(st, n + 1));
    var st2 := CompileExpr(funcs, st1, e.fun, base);
    var st3 := CompileList(funcs, st2, e.args, base + 1);
    var ins := MakeABC(CALL, dest, base, n % 0x100);
    FreeRunCode(Emit(st3, ins), base, n + 1);
    CalmList(funcs, st2, e.args, base + 1);
    CalmLen(st2, st3);
    CalmExpr(funcs, st1, e.fun, base);
    CalmFrom(st1, st, st2);
    CalmTrans(st, st2, st3);
    CalmEmit(st, st3, ins);
    CalmFreeRun(st, Emit(st3, ins), base, n + 1);
  }

  lemma {:induction false} CalmArray(funcs: seq<FuncDecl>, st: CS, e: Expr, dest: Byte)
    requires e.ArrayLit? && |CompileArray(funcs, st, e, dest).code| < 0x8000
    ensures Calm(st, CompileArray(funcs, st, e, dest))
    decreases e, 0
  {
    hide Calm, CompileList, FreeRun, ArrayRegs, Plain;
    var n := |e.elts|;
    CalmSame(st, st);
    if n == 0 {
      CalmEmit(st, st, MakeABC(NEWARR, dest, 0, 0));
    } else {
      var (st1, base) := ArrayRegs(st, n);
      var st2 := CompileList(funcs, st1, e.elts, base);
      var ins := MakeABC(NEWARR, dest, base, n % 0x100);
      ShapeArrayRegs(st, n);
      FreeRunCode(Emit(st2, ins), base, n);
      CalmList(funcs, st1, e.elts, base);
      CalmFrom(st1, st, st2);
      CalmEmit(st, st2, ins);
      CalmFreeRun(st, Emit(st2, ins), base, n);
    }
  }

  lemma {:induction false} CalmList(funcs: seq<FuncDecl>, st: CS, es: seq<Expr>, base: nat)
    requires |CompileList(funcs, st, es, base).code| < 0x8000
    ensures Calm(st, CompileList(funcs, st, es, base))
    decreases es, 0
  {
    hide Calm, CompileExpr, Plain;
    if es == [] {
      CalmSame(st, st);
    } else {
      var st1 := CompileExpr(funcs, st, es[0], base % 0x100);
      var st2 := CompileList(funcs, st1, es[1..], base + 1);
      CalmList(funcs, st1, es[1..], base + 1);
      CalmLen(st1, st2);
      CalmExpr(funcs, st, es[0], base % 0x100);
      CalmTrans(st, st1, st2);
    }
  }

  lemma {:induction false} CalmEntries(funcs: seq<FuncDecl>, st: CS, entries: seq<Entry>, dest: Byte)
    requires |CompileEntries(funcs, st, entries, dest).code| < 0x8000
    ensures Calm(st, CompileEntries(funcs, st, entries, dest))
    decreases entries, 0
  {
    hide Calm, CompileEntry, Plain;
    if entries == [] {
      CalmSame(st, st);
    } else {
      var st1 := CompileEntry(funcs, st, entries[0], dest);
      var st2 := CompileEntries(funcs, st1, entries[1..], dest);
      CalmEntries(funcs, st1, entries[1..], dest);
      CalmLen(st1, st2);
      CalmEntry(funcs, st, entries[0], dest);
      CalmTrans(st, st1, st2);
    }
  }

  lemma {:induction false} CalmEntry(funcs: seq<FuncDecl>, st: CS, en: Entry, dest: Byte)
    requires |CompileEntry(funcs, st, en, dest).code| < 0x8000
    ensures Calm(st, CompileEntry(funcs, st, en, dest))
    decreases en, 2
  {
    hide Calm, CompileExpr, Intern, Alloc, Free, EmitSetKey, Plain;
    if en.key.Lit? && en.key.lit.LStr? {
      var (st1, ki) := Intern(st, CStr(en.key.lit.s));
      var (st2, vr) := Alloc(st1);
      var st3 := CompileExpr(funcs, st2, en.val, vr);
      var st4 := EmitSetKey(st3, ki, dest, vr);
      SameRegs(st4, vr);
      CalmSetKey(st3, ki, dest, vr);
      CalmLen(st3, st4);
      CalmExpr(funcs, st2, en.val, vr);
      CalmTrans(st2, st3, st4);
      CalmAlloc2(st1, st4);
      CalmSame(st, st);
      CalmIntern(st, st, CStr(en.key.lit.s));
      CalmTrans(st, st1, st4);
      CalmFree(st, st4, vr);
    } else {
      var (st1, kr) := Alloc(st);
      var st2 := CompileExpr(funcs, st1, en.key, kr);
      var (st3, vr) := Alloc(st2);
      var st4 := CompileExpr(funcs, st3, en.val, vr);
      var ins := MakeABC(SETI, dest, kr, vr);
      SameRegs(st2, 0);
      SameRegs(Emit(st4, ins), kr);
      SameRegs(Free(Emit(st4, ins), kr), vr);
      CalmExpr(funcs, st3, en.val, vr);
      CalmLen(st3, st4);
      CalmExpr(funcs, st1, en.key, kr);
      CalmScoped2(st, st1, st2, st3, st4, kr, vr, ins);
    }
  }

  // ---- statements ----

  /** No break or continue leaves the body of a try; brk: a loop around is in reach. */
  predicate Stays(s: Stmt, brk: bool)
    decreases s, 1
  {
    match s
    case Block(ss) => StaysAll(ss, brk)
    case If(_, thn, els) => StaysAll(thn, brk)
      && (els.Some? && (els.value.Block? || els.value.If?) ==> Stays(els.value, brk))
    case While(_, body) => StaysAll(body, true)
    case Break => brk
    case Continue => brk
    case Switch(_, cases, default) => StaysCases(cases, brk) && (default.Default? ==> StaysAll(default.body, brk))
    case Try(body, _, handler) => StaysAll(body, false) && StaysAll(handler, brk)
    case _ => true
  }

  predicate StaysAll(ss: seq<Stmt>, brk: bool)
    decreases ss, 0
  {
    ss == [] || (Stays(ss[0], brk) && StaysAll(ss[1..], brk))
  }

  predicate StaysCases(cases: seq<Case>, brk: bool)
    decreases cases, 0
  {
    cases == [] || (StaysAll(cases[0].body, brk) && StaysCases(cases[1..], brk))
  }

  /** The breaks recorded between two states. */
  ghost function New(st: CS, c: CS): set<int> {
    var x, z := |Breaks(st)|, Breaks(c);
    Elems(z[if x <= |z| then x else |z|..])
  }

  function Elems(s: seq<int>): set<int> { set i | i in s }

  /** The innermost loop's test stands between the same TRYs as the code now. */
  ghost predicate Looping(st: CS) {
    && st.loops != []
    && var cont := st.loops[|st.loops| - 1].cont;
    && cont <= |st.code| && Open(st.code, cont) == Open(st.code, |st.code|)
  }

  /** Compiling from st to c left only new breaks open, and none when no loop is in reach. */
  ghost predicate Neat(st: CS, c: CS, h: set<int>) {
    SShape(st, c) && Tidy(st.code, c.code, h + New(st, c))
  }

  lemma NewTrans(a: CS, b: CS, c: CS)
    requires SShape(a, b) && SShape(b, c)
    ensures New(a, c) == New(a, b) + New(b, c)
  {
    var x, y, z := Breaks(a), Breaks(b), Breaks(c);
    assert x <= y <= z;
    assert z[|x|..] == z[|x|..|y|] + z[|y|..];
    assert z[|x|..|y|] == y[|x|..];
  }

  lemma NeatTrans(a: CS, b: CS, c: CS, h: set<int>, g: set<int>)
    requires Neat(a, b, h) && Neat(b, c, g)
    ensures Neat(a, c, h + g)
  {
    hide SShape, Tidy, New;
    SShapeTrans(a, b, c);
    NewTrans(a, b, c);
    TidyTrans(a.code, b.code, c.code, h + New(a, b), g + New(b, c));
    assert h + New(a, b) + (g + New(b, c)) == h + g + New(a, c);
  }

  lemma NeatLen(a: CS, b: CS, h: set<int>)
    requires Neat(a, b, h)
    ensures |a.code| <= |b.code| && a.code <= b.code
  {
  }

  /** Only code, loops and the allocator's invariant matter. */
  lemma NeatEnd(a: CS, b: CS, c: CS, h: set<int>)
    requires Neat(a, b, h) && SShape(a, c) && c.code == b.code && c.loops == b.loops
    ensures Neat(a, c, h)
  {
    hide SShape, Tidy;
  }

  lemma NeatNone(a: CS)
    ensures Neat(a, a, {})
  {
    hide SShape, Tidy;
    SShapeRefl(a);
    TidyNone(a.code);
    assert New(a, a) == {};
    assert {} + New(a, a) == {};
  }

  /** One instruction that is neither TRY nor ENDTRY; a jump is a hole. */
  lemma NeatEmit(a: CS, ins: Instr)
    requires ins.op != TRY && ins.op != ENDTRY
    ensures Neat(a, Emit(a, ins), if Aims(ins) then {|a.code|} else {})
  {
    hide SShape, Tidy, Aims;
    SEmit(a, ins);
    TidyOne(a.code, ins);
    var h: set<int> := if Aims(ins) then {|a.code|} else {};
    assert New(a, Emit(a, ins)) == {};
    assert h + {} == h;
  }

  /** Filling a hole that is no break. */
  lemma NeatPatch(a: CS, c: CS, h: set<int>, ip: int, t: int)
    requires Neat(a, c, h) && ip in h && ip !in New(a, c) && 0 <= t <= |c.code| < 0x8000
    requires Open(c.code, t) == Open(c.code, |a.code|) && SShape(a, PatchSbx(c, ip, t - ip - 1))
    ensures Neat(a, PatchSbx(c, ip, t - ip - 1), h - {ip})
    ensures PatchSbx(c, ip, t - ip - 1).loops == c.loops && |PatchSbx(c, ip, t - ip - 1).code| == |c.code|
  {
    hide SShape, Tidy, Open, PatchSbx;
    TidyPatch(a.code, c, h + New(a, c), ip, t);
    var d := PatchSbx(c, ip, t - ip - 1);
    assert New(a, d) == New(a, c);
    assert h + New(a, c) - {ip} == h - {ip} + New(a, d);
  }

  lemma NeatOpenEnd(a: CS, c: CS, h: set<int>)
    requires Neat(a, c, h)
    ensures Open(c.code, |c.code|) == Open(c.code, |a.code|) == Open(a.code, |a.code|)
  {
    OpenPrefix(a.code, c.code, |a.code|);
  }

  /** A position that is no break of the whole is none of a part; NewBreak and New say the same. */
  lemma NewIs(a: CS, c: CS, i: int)
    requires SShape(a, c)
    ensures i in New(a, c) <==> NewBreak(a, c, i)
  {
    var x, z := Breaks(a), Breaks(c);
    assert x <= z;
    if i in New(a, c) {
      var j :| 0 <= j < |z[|x|..]| && z[|x|..][j] == i;
      assert z[|x| + j] == i;
    }
    if NewBreak(a, c, i) {
      var j :| |x| <= j < |z| && z[j] == i;
      assert z[|x|..][j - |x|] == i;
    }
  }

  lemma LoopsSame(a: CS, b: CS, h: set<int>)
    requires Neat(a, b, h) && Looping(a)
    ensures Looping(b)
  {
    hide Tidy;
    var cont := a.loops[|a.loops| - 1].cont;
    assert b.loops[|b.loops| - 1].cont == cont;
    OpenPrefix(a.code, b.code, cont);
    OpenPrefix(a.code, b.code, |a.code|);
    assert Tidy(a.code, b.code, h + New(a, b));
    TidyEnds(a.code, b.code, h + New(a, b));
  }

  lemma TidyEnds(a: seq<Instr>, b: seq<Instr>, h: set<int>)
    requires Tidy(a, b, h)
    ensures a <= b && Open(b, |b|) == Open(b, |a|)
  {
  }

  // ---- statements made of expressions ----

  lemma NeatFlat(a: CS, c: CS)
    requires Calm(a, c) && SShape(a, c) && Breaks(c) == Breaks(a)
    ensures Neat(a, c, {}) && New(a, c) == {}
  {
    hide SShape, Tidy, Plain;
    PlainTidy(a.code, c.code, {});
    NewNone(a, c);
    var none: set<int> := {};
    assert none + New(a, c) == none;
  }

  lemma NewNone(a: CS, c: CS)
    requires Breaks(c) == Breaks(a)
    ensures New(a, c) == {}
  {
  }

  lemma {:induction false} CalmUse(funcs: seq<FuncDecl>, st: CS, e: Expr, op: Byte)
    requires op == RET || op == THROW
    requires var (st1, r) := Alloc(st); |CompileExpr(funcs, st1, e, r).code| + 1 < 0x8000
    ensures var (st1, r) := Alloc(st); Calm(st, Free(Emit(CompileExpr(funcs, st1, e, r), MakeABC(op, r, 0, 0)), r))
  {
    hide Calm, Alloc, Free, CompileExpr;
    var (st1, r) := Alloc(st);
    CalmExpr(funcs, st1, e, r);
    CalmScoped(st, st1, CompileExpr(funcs, st1, e, r), r, MakeABC(op, r, 0, 0));
  }

  lemma {:induction false} CalmInto(funcs: seq<FuncDecl>, st: CS, e: Expr)
    requires var (st1, r) := Alloc(st); |CompileExpr(funcs, st1, e, r).code| < 0x8000
    ensures var (st1, r) := Alloc(st); Calm(st, CompileExpr(funcs, st1, e, r))
  {
    hide Calm, Alloc, CompileExpr;
    var (st1, r) := Alloc(st);
    CalmExpr(funcs, st1, e, r);
    CalmAlloc2(st, CompileExpr(funcs, st1, e, r));
  }

  lemma {:induction false} CalmAssign(funcs: seq<FuncDecl>, st: CS, target: Expr, e: Expr)
    requires |CompileAssign(funcs, st, target, e).code| < 0x8000
    ensures Calm(st, CompileAssign(funcs, st, target, e))
  {
    hide Calm, Alloc, Free, CompileExpr, Intern, EmitSetField, MakeABx;
    CalmSame(st, st);
    match target
    case Ident(name) =>
      if name in st.locals {
        CalmExpr(funcs, st, e, st.locals[name]);
      } else {
        var (st1, r) := Alloc(st);
        var st2 := CompileExpr(funcs, st1, e, r);
        var (st3, ki) := Intern(st2, CStr(name));
        var st4 := Emit(st3, MakeABx(STOREG, r, ki % 0x1_0000));
        SameRegs(st4, r);
        InternCode(st2, CStr(name));
        CalmInto(funcs, st, e);
        CalmIntern(st, st2, CStr(name));
        CalmEmit(st, st3, MakeABx(STOREG, r, ki % 0x1_0000));
        CalmFree(st, st4, r);
      }
    case Index(x, i) => CalmAssignIndex(funcs, st, x, i, e);
    case Field(x, name) =>
      var (st1, obj) := Alloc(st);
      var st2 := CompileExpr(funcs, st1, x, obj);
      var (st3, val) := Alloc(st2);
      var st4 := CompileExpr(funcs, st3, e, val);
      var st5 := EmitSetField(st4, name, obj, val);
      SameRegs(st2, 0);
      SameRegs(st5, obj);
      SameRegs(Free(st5, obj), val);
      CalmSetField(st4, name, obj, val);
      CalmLen(st4, st5);
      CalmExpr(funcs, st3, e, val);
      CalmLen(st3, st4);
      CalmExpr(funcs, st1, x, obj);
      CalmFrom(st3, st2, st4);
      CalmTrans(st1, st2, st4);
      CalmTrans(st1, st4, st5);
      CalmAlloc2(st, st5);
      CalmFree(st, st5, obj);
      CalmFree(st, Free(st5, obj), val);
    case _ => CalmSame(st, st.(errs := st.errs + 1));
  }

  lemma InternCode(st: CS, k: Constant)
    ensures Intern(st, k).0.code == st.code
  {
  }

  lemma CalmSetField(st: CS, name: Text, obj: Byte, val: Byte)
    ensures Calm(st, EmitSetField(st, name, obj, val))
  {
    hide Calm, Intern, EmitSetKey;
    var (st1, ki) := Intern(st, CStr(name));
    CalmSame(st, st);
    CalmIntern(st, st, CStr(name));
    CalmSetKey(st1, ki, obj, val);
    CalmTrans(st, st1, EmitSetKey(st1, ki, obj, val));
  }

  lemma {:induction false} CalmAssignIndex(funcs: seq<FuncDecl>, st: CS, x: Expr, i: Expr, e: Expr)
    requires |CompileAssign(funcs, st, Index(x, i), e).code| < 0x8000
    ensures Calm(st, CompileAssign(funcs, st, Index(x, i), e))
  {
    hide Calm, Alloc, Free, CompileExpr;
    var (st1, obj) := Alloc(st);
    var st2 := CompileExpr(funcs, st1, x, obj);
    var (st3, idx) := Alloc(st2);
    var st4 := CompileExpr(funcs, st3, i, idx);
    var (st5, val) := Alloc(st4);
    var st6 := CompileExpr(funcs, st5, e, val);
    var st7 := Emit(st6, MakeABC(SETI, obj, idx, val));
    assert CompileAssign(funcs, st, Index(x, i), e) == Free(Free(Free(st7, obj), idx), val);
    SameRegs(st2, 0);
    SameRegs(st4, 0);
    SameRegs(st7, obj);
    SameRegs(Free(st7, obj), idx);
    SameRegs(Free(Free(st7, obj), idx), val);
    CalmExpr(funcs, st5, e, val);
    CalmLen(st5, st6);
    CalmExpr(funcs, st3, i, idx);
    CalmLen(st3, st4);
    CalmExpr(funcs, st1, x, obj);
    CalmFrom(st3, st2, st4);
    CalmTrans(st1, st2, st4);
    CalmFrom(st5, st4, st6);
    CalmTrans(st1, st4, st6);
    CalmEmit(st1, st6, MakeABC(SETI, obj, idx, val));
    CalmAlloc2(st, st7);
    CalmFree(st, st7, obj);
    CalmFree(st, Free(st7, obj), idx);
    CalmFree(st, Free(Free(st7, obj), idx), val);
  }

  // ---- jumps ----

  lemma TidyAimed(a: seq<Instr>, ins: Instr)
    requires ins.op == JMP && 0 <= |a| + 1 + ins.SBx() <= |a| && Open(a, |a| + 1 + ins.SBx()) == Open(a, |a|)
    ensures Tidy(a, a + [ins], {})
  {
    hide Instr.SBx, Tidy, Open;
    var b := a + [ins];
    TidyOne(a, ins);
    OpenPrefix(a, b, |a|);
    OpenPrefix(a, b, |a| + 1 + ins.SBx());
    TidyPut(a, b, {|a|}, |a|, ins);
    assert b[|a| := ins] == b;
    var h: set<int> := {|a|};
    assert h - {|a|} == {};
  }

  /** A jump back to where the same TRYs are open. */
  lemma NeatJumpBack(st: CS, t: nat)
    requires t <= |st.code| < 0x8000 && Open(st.code, t) == Open(st.code, |st.code|)
    ensures Neat(st, EmitJump(st, JMP, 0, t), {}) && New(st, EmitJump(st, JMP, 0, t)) == {}
    ensures EmitJump(st, JMP, 0, t).loops == st.loops && |EmitJump(st, JMP, 0, t).code| == |st.code| + 1
  {
    hide SShape, Tidy, MakeAsBx, ToI16, Instr.SBx, Open;
    var ins := MakeAsBx(JMP, 0, ToI16(t - (|st.code| + 1)));
    Aimed(JMP, 0, |st.code|, t);
    SEmit(st, ins);
    TidyAimed(st.code, ins);
    NewNone(st, Emit(st, ins));
    var none: set<int> := {};
    assert none + none == none;
  }

  lemma NeatBreak(st: CS)
    requires st.loops != []
    ensures Neat(st, EmitBreak(st), {})
  {
    hide SShape, Tidy, Open;
    SShapeBreak(st);
    BreakIs(st);
    var d := EmitBreak(st);
    TidyOne(st.code, d.code[|st.code|]);
    var h: set<int> := {|st.code|};
    assert {} + New(st, d) == h;
  }

  lemma BreakIs(st: CS)
    requires st.loops != []
    ensures var d := EmitBreak(st);
      |d.code| == |st.code| + 1 && d.code == st.code + [d.code[|st.code|]] && d.code[|st.code|].op == JMP
        && New(st, d) == {|st.code|}
  {
    hide MakeAsBx;
    var d := EmitBreak(st);
    assert Breaks(d) == Breaks(st) + [|st.code|];
    assert Breaks(d)[|Breaks(st)|..] == [|st.code|];
  }

  lemma NewLater(a: CS, b: CS, c: CS, ip: int)
    requires SShape(a, b) && SShape(b, c) && ip < |b.code| && ip !in New(a, b)
    ensures ip !in New(a, c)
  {
    NewTrans(a, b, c);
    NewIs(b, c, ip);
    NoBreak(b, c, ip);
  }

  lemma NewAfter(a: CS, c: CS, ip: int)
    requires SShape(a, c) && ip < |a.code|
    ensures ip !in New(a, c)
  {
    NewIs(a, c, ip);
    NoBreak(a, c, ip);
  }

  /** The condition of an if, a while: a hole at the end. */
  lemma {:induction false} NeatCondJump(funcs: seq<FuncDecl>, st: CS, c: Expr)
    requires |CondJump(funcs, st, c).code| < 0x8000
    ensures var st1 := CondJump(funcs, st, c);
      Neat(st, st1, {|st1.code| - 1}) && New(st, st1) == {} && |st.code| < |st1.code| && st1.loops == st.loops
  {
    hide SShape, Tidy, Plain, CondJump;
    PlainCondJump(funcs, st, c);
    var st1 := CondJump(funcs, st, c);
    SShapeCondJump(funcs, st, c);
    PlainTidy(st.code, st1.code, {|st1.code| - 1});
    NewNone(st, st1);
    var h: set<int> := {|st1.code| - 1};
    assert h + {} == h;
  }

  /** IfJoin: the condition's hole is filled, the jump over the rest is a new one. */
  lemma NeatJoin(st: CS, st1: CS, st2: CS)
    requires |st.code| < |st1.code| && Neat(st, st1, {|st1.code| - 1}) && New(st, st1) == {} && st1.loops == st.loops
    requires Neat(st1, st2, {}) && |st2.code| + 1 < 0x8000
    ensures var st3 := IfJoin(st1, st2);
      && Neat(st, st3, {|st2.code|}) && New(st, st3) == New(st1, st2) && |st2.code| !in New(st, st3)
      && |st3.code| == |st2.code| + 1 && st3.loops == st2.loops
  {
    hide SShape, Tidy, MakeAsBx, Open, New;
    var j := MakeAsBx(JMP, 0, 0);
    var c := Emit(st2, j);
    var h: set<int> := {|st1.code| - 1};
    BreaksOf(st, st1);
    NeatShape(st, st1, h);
    NeatShape(st1, st2, {});
    NeatLen(st1, st2, {});
    NeatTrans(st, st1, st2, h, {});
    NeatEmit(st2, j);
    NeatTrans(st, st2, c, h + {}, {|st2.code|});
    assert h + {} + {|st2.code|} == {|st1.code| - 1, |st2.code|};
    JoinNew(st, st1, st2, c);
    SShapeJoin(st, st1, st2);
    JoinIs(st1, st2);
    NeatOpenEnd(st, c, h + {} + {|st2.code|});
    NeatPatch(st, c, {|st1.code| - 1, |st2.code|}, |st1.code| - 1, |st2.code| + 1);
    NeatLen(st, st1, h);
    assert {|st1.code| - 1, |st2.code|} - {|st1.code| - 1} == {|st2.code|};
    NewSame(st, c, IfJoin(st1, st2));
  }

  lemma JoinIs(st1: CS, st2: CS)
    ensures IfJoin(st1, st2) == PatchSbx(Emit(st2, MakeAsBx(JMP, 0, 0)), |st1.code| - 1,
      |st2.code| + 1 - (|st1.code| - 1) - 1)
    ensures |IfJoin(st1, st2).code| == |st2.code| + 1 && IfJoin(st1, st2).loops == st2.loops
  {
    hide MakeAsBx;
  }

  lemma NewSame(a: CS, b: CS, c: CS)
    requires b.loops == c.loops
    ensures New(a, b) == New(a, c)
  {
  }

  lemma NeatShape(a: CS, b: CS, h: set<int>)
    requires Neat(a, b, h)
    ensures SShape(a, b)
  {
  }

  lemma BreaksOf(a: CS, b: CS)
    requires a.loops == b.loops
    ensures Breaks(a) == Breaks(b)
  {
  }

  lemma JoinNew(st: CS, st1: CS, st2: CS, c: CS)
    requires SShape(st, st1) && New(st, st1) == {} && SShape(st1, st2) && c.loops == st2.loops && |st.code| < |st1.code|
    ensures New(st, c) == New(st1, st2) && |st1.code| - 1 !in New(st, c) && |st2.code| !in New(st, c)
  {
    hide SShape;
    NewTrans(st, st1, st2);
    NewSame(st, st2, c);
    NewAfter(st1, st2, |st1.code| - 1);
    NewBefore(st1, st2, |st2.code|);
  }

  lemma NewBefore(a: CS, c: CS, ip: int)
    requires SShape(a, c) && ip >= |c.code|
    ensures ip !in New(a, c)
  {
    NewIs(a, c, ip);
  }

  // ---- the statements ----

  lemma {:induction false} NeatStmts(funcs: seq<FuncDecl>, st: CS, ss: seq<Stmt>, brk: bool)
    requires StaysAll(ss, brk) && (brk ==> Looping(st)) && |CompileStmts(funcs, st, ss).code| < 0x8000
    ensures Neat(st, CompileStmts(funcs, st, ss), {}) && (!brk ==> New(st, CompileStmts(funcs, st, ss)) == {})
    decreases ss, 0
  {
    hide SShape, Tidy, CompileStmt, New, Looping, Neat, Stays;
    if ss == [] {
      NeatNone(st);
      NewNone(st, st);
    } else {
      var st1 := CompileStmt(funcs, st, ss[0]);
      var st2 := CompileStmts(funcs, st1, ss[1..]);
      SShapeStmts(funcs, st1, ss[1..]);
      SLen(st1, st2);
      NeatStmt(funcs, st, ss[0], brk);
      if brk {
        LoopsSame(st, st1, {});
      }
      NeatStmts(funcs, st1, ss[1..], brk);
      NeatTrans(st, st1, st2, {}, {});
      var none: set<int> := {};
      assert none + none == none;
      NeatShape(st, st1, {});
      NewTrans(st, st1, st2);
    }
  }

  lemma {:induction false} NeatBlock(funcs: seq<FuncDecl>, st: CS, ss: seq<Stmt>, brk: bool)
    requires StaysAll(ss, brk) && (brk ==> Looping(st)) && |CompileBlock(funcs, st, ss).code| < 0x8000
    ensures Neat(st, CompileBlock(funcs, st, ss), {}) && (!brk ==> New(st, CompileBlock(funcs, st, ss)) == {})
    decreases ss, 1
  {
    hide SShape, Tidy, CompileStmts, New, Looping, Neat;
    NeatStmts(funcs, st, ss, brk);
    var c := CompileStmts(funcs, st, ss);
    SShapeBlock(funcs, st, ss);
    NeatEnd(st, c, CompileBlock(funcs, st, ss), {});
    NewSame(st, c, CompileBlock(funcs, st, ss));
  }

  lemma {:induction false} NeatSimple(funcs: seq<FuncDecl>, st: CS, s: Stmt)
    requires s.Let? || s.Assign? || s.ExprStmt? || s.Return? || s.Throw?
    requires |CompileStmt(funcs, st, s).code| < 0x8000
    ensures Neat(st, CompileStmt(funcs, st, s), {}) && New(st, CompileStmt(funcs, st, s)) == {}
  {
    hide SShape, Tidy, New, CompileExpr, CompileAssign, Alloc, Free, Calm;
    var c := CompileStmt(funcs, st, s);
    SShapeStmt(funcs, st, s);
    SimpleLoops(funcs, st, s);
    match s {
      case Let(name, e) =>
        CalmInto(funcs, st, e);
        var (st1, r) := Alloc(st);
        CalmTo(st, CompileExpr(funcs, st1, e, r), c);
      case Assign(target, e) => CalmAssign(funcs, st, target, e);
      case ExprStmt(e) =>
        var (st1, r) := Alloc(st);
        SameRegs(CompileExpr(funcs, st1, e, r), r);
        CalmInto(funcs, st, e);
        CalmFree(st, CompileExpr(funcs, st1, e, r), r);
      case Return(None) =>
        CalmSame(st, st);
        CalmEmit(st, st, MakeABC(RETN, 0, 0, 0));
      case Return(Some(e)) => CalmLast(funcs, st, e, RET);
      case Throw(e) => CalmLast(funcs, st, e, THROW);
    }
    NeatFlat(st, c);
  }

  lemma CalmLast(funcs: seq<FuncDecl>, st: CS, e: Expr, op: Byte)
    requires op == RET || op == THROW
    requires var (st1, r) := Alloc(st);
      |Free(Emit(CompileExpr(funcs, st1, e, r), MakeABC(op, r, 0, 0)),
      r).code| < 0x8000
    ensures var (st1, r) := Alloc(st); Calm(st, Free(Emit(CompileExpr(funcs, st1, e, r), MakeABC(op, r, 0, 0)), r))
  {
    hide Calm, CompileExpr, Alloc, Free;
    var (st1, r) := Alloc(st);
    SameRegs(Emit(CompileExpr(funcs, st1, e, r), MakeABC(op, r, 0, 0)), r);
    CalmUse(funcs, st, e, op);
  }

  lemma CalmTo(a: CS, b: CS, c: CS)
    requires Calm(a, b) && b.code == c.code
    ensures Calm(a, c)
  {
  }

  /** A statement made of expressions leaves the loops alone. */
  lemma SimpleLoops(funcs: seq<FuncDecl>, st: CS, s: Stmt)
    requires s.Let? || s.Assign? || s.ExprStmt? || s.Return? || s.Throw?
    ensures Breaks(CompileStmt(funcs, st, s)) == Breaks(st)
  {
    hide Inv, Grows, CompileExpr, Alloc, Free, CompileAssign;
    match s
    case Let(_, e) =>
      var (st1, r) := Alloc(st);
      SameRegs(st, r);
      ShapeExpr(funcs, st1, e, r);
    case Assign(target, e) => ShapeAssign(funcs, st, target, e);
    case ExprStmt(e) =>
      var (st1, r) := Alloc(st);
      SameRegs(st, r);
      ShapeExpr(funcs, st1, e, r);
      SameRegs(CompileExpr(funcs, st1, e, r), r);
    case Return(None) =>
    case Return(Some(e)) => UseLoops(funcs, st, e, RET);
    case Throw(e) => UseLoops(funcs, st, e, THROW);
  }

  lemma UseLoops(funcs: seq<FuncDecl>, st: CS, e: Expr, op: Byte)
    ensures var (st1, r) := Alloc(st);
      Free(Emit(CompileExpr(funcs, st1, e, r), MakeABC(op, r, 0, 0)), r).loops ==
      st.loops
  {
    hide Inv, Grows, CompileExpr, Alloc, Free;
    var (st1, r) := Alloc(st);
    SameRegs(st, r);
    ShapeExpr(funcs, st1, e, r);
    SameRegs(Emit(CompileExpr(funcs, st1, e, r), MakeABC(op, r, 0, 0)), r);
  }

  lemma {:induction false} NeatStmt(funcs: seq<FuncDecl>, st: CS, s: Stmt, brk: bool)
    requires Stays(s, brk) && (brk ==> Looping(st)) && |CompileStmt(funcs, st, s).code| < 0x8000
    ensures Neat(st, CompileStmt(funcs, st, s), {}) && (!brk ==> New(st, CompileStmt(funcs, st, s)) == {})
    decreases s, 2
  {
    hide SShape, Tidy, New, Neat, CompileBlock, CompileAssign, CompileIf, CompileWhile, CompileSwitch, CompileTry,
      EmitBreak, EmitContinue,
      CompileExpr, Alloc, Free, StaysAll, StaysCases;
    if s.Let? || s.Assign? || s.ExprStmt? || s.Return? || s.Throw? {
      NeatSimple(funcs, st, s);
    } else if s.Block? {
      NeatBlock(funcs, st, s.stmts, brk);
    } else if s.If? {
      NeatIf(funcs, st, s, brk);
    } else if s.While? {
      NeatWhile(funcs, st, s);
    } else if s.Break? {
      NeatBreak(st);
    } else if s.Continue? {
      NeatContinue(st);
    } else if s.Switch? {
      NeatSwitch(funcs, st, s, brk);
    } else {
      NeatTry(funcs, st, s, brk);
    }
  }

  lemma NeatContinue(st: CS)
    requires Looping(st) && |EmitContinue(st).code| < 0x8000
    ensures Neat(st, EmitContinue(st), {}) && New(st, EmitContinue(st)) == {}
  {
    hide Neat, New, Open, EmitJump;
    var t := st.loops[|st.loops| - 1].cont;
    assert EmitContinue(st) == EmitJump(st, JMP, 0, t);
    JumpLen(st, t);
    NeatJumpBack(st, t);
  }

  lemma JumpLen(st: CS, t: nat)
    ensures |EmitJump(st, JMP, 0, t).code| == |st.code| + 1
  {
    hide MakeAsBx, ToI16;
  }

  lemma {:induction false} NeatIf(funcs: seq<FuncDecl>, st: CS, s: Stmt, brk: bool)
    requires s.If? && Stays(s, brk) && (brk ==> Looping(st)) && |CompileIf(funcs, st, s).code| < 0x8000
    ensures Neat(st, CompileIf(funcs, st, s), {}) && (!brk ==> New(st, CompileIf(funcs, st, s)) == {})
    decreases s, 1
  {
    hide SShape, Tidy, New, Neat, Looping, CompileBlock, CompileStmt, CondJump, IfJoin, PatchSbx, Open, StaysAll;
    var st1 := CondJump(funcs, st, s.cond);
    var st2 := CompileBlock(funcs, st1, s.thn);
    SShapeBlock(funcs, st1, s.thn);
    SLen(st1, st2);
    SShapeIf(funcs, st, s);
    if s.els == None {
      PatchLen(st2, |st1.code| - 1, |st2.code| - |st1.code|);
      IfFront(funcs, st, s, brk);
      NeatTrans(st, st1, st2, {|st1.code| - 1}, {});
      NeatOpenEnd(st, st2, {|st1.code| - 1} + {});
      NeatPatch(st, st2, {|st1.code| - 1} + {}, |st1.code| - 1, |st2.code|);
      var h: set<int> := {|st1.code| - 1};
      assert h + {} - {|st1.code| - 1} == {};
      NewSame(st, st2, CompileIf(funcs, st, s));
    } else {
      var st3 := IfJoin(st1, st2);
      JoinIs(st1, st2);
      var st4 := if s.els.value.Block? || s.els.value.If? then CompileStmt(funcs, st3, s.els.value) else st3;
      PatchLen(st4, |st2.code|, |st4.code| - |st2.code| - 1);
      SShapeStmt(funcs, st3, s.els.value);
      SLen(st3, CompileStmt(funcs, st3, s.els.value));
      IfFront(funcs, st, s, brk);
      NeatJoin(st, st1, st2);
      if brk {
        LoopsSame(st, st3, {|st2.code|});
      }
      if s.els.value.Block? || s.els.value.If? {
        NeatStmt(funcs, st3, s.els.value, brk);
      } else {
        NeatNone(st3);
        NewNone(st3, st3);
      }
      IfBack(st, st3, st4, |st2.code|);
      NewSame(st, st4, CompileIf(funcs, st, s));
    }
  }

  /** The condition and the first branch. */
  lemma {:induction false} IfFront(funcs: seq<FuncDecl>, st: CS, s: Stmt, brk: bool)
    requires s.If? && Stays(s, brk) && (brk ==> Looping(st))
    requires |CompileBlock(funcs, CondJump(funcs, st, s.cond), s.thn).code| < 0x8000
    ensures var st1 := CondJump(funcs, st, s.cond);
      var st2 := CompileBlock(funcs, st1, s.thn);
      && |st.code| < |st1.code| && Neat(st, st1, {|st1.code| - 1}) && New(st, st1) == {} && st1.loops == st.loops
      && Neat(st1, st2, {}) && (!brk ==> New(st1, st2) == {}) && SShape(st, st2) && New(st, st2) == New(st1, st2)
      && |st1.code| - 1 !in New(st, st2)
    decreases s, 0
  {
    hide SShape, Tidy, New, Neat, Looping, CompileBlock, CondJump, StaysAll;
    var st1 := CondJump(funcs, st, s.cond);
    var st2 := CompileBlock(funcs, st1, s.thn);
    SShapeBlock(funcs, st1, s.thn);
    SLen(st1, st2);
    NeatCondJump(funcs, st, s.cond);
    if brk {
      LoopsSame(st, st1, {|st1.code| - 1});
    }
    NeatBlock(funcs, st1, s.thn, brk);
    NeatShape(st, st1, {|st1.code| - 1});
    SShapeTrans(st, st1, st2);
    NewTrans(st, st1, st2);
    NewAfter(st1, st2, |st1.code| - 1);
  }

  /** The second branch, and the jump over it filled. */
  lemma IfBack(st: CS, st3: CS, st4: CS, ip: int)
    requires Neat(st, st3, {ip}) && ip !in New(st, st3) && 0 <= ip < |st3.code| && Neat(st3, st4, {})
      && |st4.code| < 0x8000
    requires SShape(st, PatchSbx(st4, ip, |st4.code| - ip - 1))
    ensures Neat(st, PatchSbx(st4, ip, |st4.code| - ip - 1), {})
    ensures New(st, st4) == New(st, st3) + New(st3, st4)
  {
    hide SShape, Tidy, New, Neat, PatchSbx, Open;
    NeatShape(st, st3, {ip});
    NeatShape(st3, st4, {});
    NeatTrans(st, st3, st4, {ip}, {});
    NewTrans(st, st3, st4);
    NewLater(st, st3, st4, ip);
    NeatOpenEnd(st, st4, {ip} + {});
    NeatPatch(st, st4, {ip} + {}, ip, |st4.code|);
    assert {ip} + {} - {ip} == {};
  }

  /** PatchAll on jumps that wait. */
  lemma NeatPatchAll(a: seq<Instr>, c: CS, ips: seq<int>, t: nat)
    requires Tidy(a, c.code, Elems(ips)) && t <= |c.code| < 0x8000 && Open(c.code, t) == Open(c.code, |a|)
    requires forall i :: i in ips ==> 0 <= i < |c.code| && Pending(c.code[i])
    ensures Tidy(a, PatchAll(c, ips, t).code, {})
    ensures PatchAll(c, ips, t).loops == c.loops && |PatchAll(c, ips, t).code| == |c.code|
  {
    hide Tidy, Open, PatchAll, MakeAsBx, ToI16, Instr.SBx;
    var d := PatchAll(c, ips, t);
    PatchAllShape(c, ips, t);
    forall i | 0 <= i < |c.code|
      ensures d.code[i].op == c.code[i].op && (i in ips ==> i + 1 + d.code[i].SBx() == t)
    {
      if i in ips {
        PatchAllAims(c, ips, t, i);
        Aimed(JMP, 0, i, t);
      }
    }
    var none: set<int> := {};
    assert Elems(ips) + none == Elems(ips);
    TidySome(a, c.code, d.code, Elems(ips), none, t);
  }

  lemma {:induction false} NeatWhile(funcs: seq<FuncDecl>, st: CS, s: Stmt)
    requires s.While? && StaysAll(s.body, true) && |CompileWhile(funcs, st, s).code| < 0x8000
    ensures Neat(st, CompileWhile(funcs, st, s), {}) && New(st, CompileWhile(funcs, st, s)) == {}
    decreases s, 1
  {
    hide SShape, Tidy, New, Neat, Looping, CompileBlock, CondJump, PatchSbx, Open, EmitJump, PopLoop, StaysAll;
    var st0 := st.(loops := st.loops + [Loop([], |st.code|)]);
    var st1 := CondJump(funcs, st0, s.cond);
    var st2 := CompileBlock(funcs, st1, s.body);
    var st3 := EmitJump(st2, JMP, 0, |st.code|);
    var st4 := PatchSbx(st3, |st1.code| - 1, |st3.code| - |st1.code|);
    assert CompileWhile(funcs, st, s) == PopLoop(st4, |st3.code|);
    WhileLens(funcs, st0, s, st1, st2, st3);
    WhileShape(st, st0, st1, st2, st3);
    PatchLen(st3, |st1.code| - 1, |st3.code| - |st1.code|);
    SShapePop(st, st0, st4, |st3.code|);
    LoopStarts(st);
    NeatCondJump(funcs, st0, s.cond);
    LoopsSame(st0, st1, {|st1.code| - 1});
    NeatBlock(funcs, st1, s.body, true);
    WhileBack(st0, st1, st2);
    WhileEnd(st, st0, st4, |st3.code|);
  }

  lemma LoopStarts(st: CS)
    ensures Looping(st.(loops := st.loops + [Loop([], |st.code|)]))
  {
  }

  lemma {:induction false} WhileLens(funcs: seq<FuncDecl>, st0: CS, s: Stmt, st1: CS, st2: CS, st3: CS)
    requires s.While? && st1 == CondJump(funcs, st0, s.cond) && st2 == CompileBlock(funcs, st1, s.body)
      && st3 == EmitJump(st2, JMP, 0, |st0.code|)
    ensures |st0.code| < |st1.code| <= |st2.code| && |st3.code| == |st2.code| + 1 && st3.loops == st2.loops
    ensures SShape(st0, st1) && Breaks(st1) == Breaks(st0) && SShape(st1, st2) && SShape(st2, st3)
    ensures |PopLoop(PatchSbx(st3, |st1.code| - 1, |st3.code| - |st1.code|), |st3.code|).code| == |st3.code|
  {
    hide SShape, CompileBlock, CondJump, MakeAsBx, ToI16, PatchSbx, PatchAll;
    SShapeCondJump(funcs, st0, s.cond);
    SShapeBlock(funcs, st1, s.body);
    SLen(st1, st2);
    SEmit(st2, MakeAsBx(JMP, 0, ToI16(|st0.code| - (|st2.code| + 1))));
    var st4 := PatchSbx(st3, |st1.code| - 1, |st3.code| - |st1.code|);
    PatchLen(st3, |st1.code| - 1, |st3.code| - |st1.code|);
    if st4.loops != [] {
      PatchAllShape(st4.(loops := st4.loops[..|st4.loops| - 1]), st4.loops[|st4.loops| - 1].breaks, |st3.code|);
    }
  }

  lemma WhileShape(st: CS, st0: CS, st1: CS, st2: CS, st3: CS)
    requires |st0.code| < |st1.code| && SShape(st0, st1) && Breaks(st1) == Breaks(st0) && SShape(st1, st2)
      && SShape(st2, st3)
    ensures SShape(st0, PatchSbx(st3, |st1.code| - 1, |st3.code| - |st1.code|))
  {
    hide SShape, PatchSbx;
    SShapeTrans(st1, st2, st3);
    NoBreak(st0, st1, |st1.code| - 1);
    SShapePatch(st0, st1, st3, |st1.code| - 1, |st3.code| - |st1.code|);
  }

  /** The body, the jump back to the test, and the way out of the test filled. */
  lemma WhileBack(st0: CS, st1: CS, st2: CS)
    requires |st0.code| < |st1.code| && Neat(st0, st1, {|st1.code| - 1}) && New(st0, st1) == {}
      && st1.loops == st0.loops && Neat(st1, st2, {})
    requires var st3 := EmitJump(st2, JMP, 0, |st0.code|);
      |st3.code| < 0x8000 && |st3.code| == |st2.code| + 1
        && SShape(st0, PatchSbx(st3, |st1.code| - 1, |st3.code| - |st1.code|))
    ensures var st3 := EmitJump(st2, JMP, 0, |st0.code|);
      Neat(st0, PatchSbx(st3, |st1.code| - 1, |st3.code| - |st1.code|), {})
  {
    hide SShape, Tidy, New, Neat, PatchSbx, Open, EmitJump;
    var ip := |st1.code| - 1;
    var st3 := EmitJump(st2, JMP, 0, |st0.code|);
    NeatLen(st0, st1, {ip});
    NeatLen(st1, st2, {});
    NeatTrans(st0, st1, st2, {ip}, {});
    NeatOpenEnd(st0, st2, {ip} + {});
    NeatJumpBack(st2, |st0.code|);
    NeatTrans(st0, st2, st3, {ip} + {}, {});
    NeatShape(st0, st1, {ip});
    NeatShape(st1, st2, {});
    JoinNew(st0, st1, st2, st3);
    NeatOpenEnd(st0, st3, {ip} + {} + {});
    NeatPatch(st0, st3, {ip} + {} + {}, ip, |st3.code|);
    assert {ip} + {} + {} - {ip} == {};
  }

  /** The loop's breaks are filled when it is popped. */
  lemma WhileEnd(st: CS, st0: CS, st4: CS, end: nat)
    requires st0 == st.(loops := st.loops + [Loop([], |st.code|)]) && Neat(st0, st4, {}) && end == |st4.code| < 0x8000
    requires SShape(st, PopLoop(st4, end)) && PopLoop(st4, end).loops == st.loops
    ensures Neat(st, PopLoop(st4, end), {}) && New(st, PopLoop(st4, end)) == {}
  {
    hide Tidy, PatchAll, Open, Inv, Keeps, Grows;
    var n := |st.loops|;
    var ips := st4.loops[n].breaks;
    var d := st4.(loops := st4.loops[..n]);
    assert PopLoop(st4, end) == PatchAll(d, ips, end);
    NewIsBreaks(st, st0, st4);
    forall i | i in ips
      ensures 0 <= i < |st4.code| && Pending(st4.code[i])
    {
      NewIs(st0, st4, i);
    }
    NeatOpenEnd(st0, st4, {});
    assert {} + New(st0, st4) == Elems(ips);
    NeatPatchAll(st.code, d, ips, end);
    NewNone(st, PopLoop(st4, end));
    var none: set<int> := {};
    assert none + none == none;
  }

  lemma NewIsBreaks(st: CS, st0: CS, st4: CS)
    requires st0 == st.(loops := st.loops + [Loop([], |st.code|)]) && SShape(st0, st4)
    ensures |st4.loops| == |st.loops| + 1 && New(st0, st4) == Elems(st4.loops[|st.loops|].breaks)
  {
    assert Breaks(st0) == [];
    assert Breaks(st4)[0..] == Breaks(st4);
  }

  // ---- switch ----

  lemma PlainTest(st: CS, tag: Byte, m: Byte, vr: Byte, eq: Byte)
    requires |st.code| + 3 < 0x8000
    ensures Calm(st, EmitTest(st, tag, m, vr, eq)) && |EmitTest(st, tag, m, vr, eq).code| == |st.code| + 3
  {
    hide Plain, MakeAsBx;
    var st1 := Emit(st, MakeABC(EQ, eq, tag, vr));
    var j := MakeAsBx(JT, m, 0);
    var st2 := Emit(st1, j);
    var st3 := Emit(st2, MakeABC(MOVE, m, eq, 0));
    PlainNone(st.code);
    PlainEmit(st.code, st, {}, MakeABC(EQ, eq, tag, vr));
    PlainHole(st.code, st1, {}, j);
    PlainEmit(st.code, st2, {} + {|st1.code|}, MakeABC(MOVE, m, eq, 0));
    assert EmitTest(st, tag, m, vr, eq) == PatchSbx(st3, |st1.code|, |st3.code| - |st1.code| - 1);
    hide EmitTest, PatchSbx;
    PlainPatch(st.code, st3, {} + {|st1.code|}, |st1.code|, |st3.code|);
    assert {} + {|st1.code|} - {|st1.code|} == {};
  }

  lemma {:induction false} CalmTest(funcs: seq<FuncDecl>, st: CS, v: Expr, tag: Byte, m: Byte)
    requires |CompileTest(funcs, st, v, tag, m).code| < 0x8000
    ensures Calm(st, CompileTest(funcs, st, v, tag, m))
  {
    hide Calm, Alloc, Free, CompileExpr, EmitTest;
    var (st1, vr) := Alloc(st);
    var st2 := CompileExpr(funcs, st1, v, vr);
    var (st3, eq) := Alloc(st2);
    var st4 := EmitTest(st3, tag, m, vr, eq);
    SameRegs(st2, 0);
    SameRegs(st4, vr);
    SameRegs(Free(st4, vr), eq);
    TestLen(st3, tag, m, vr, eq);
    PlainTest(st3, tag, m, vr, eq);
    CalmExpr(funcs, st1, v, vr);
    CalmFrom(st3, st2, st4);
    CalmTrans(st1, st2, st4);
    CalmAlloc2(st, st4);
    CalmFree(st, st4, vr);
    CalmFree(st, Free(st4, vr), eq);
  }

  lemma TestLen(st: CS, tag: Byte, m: Byte, vr: Byte, eq: Byte)
    ensures |EmitTest(st, tag, m, vr, eq).code| == |st.code| + 3
  {
    hide MakeAsBx;
  }

  lemma {:induction false} CalmMatch(funcs: seq<FuncDecl>, st: CS, values: seq<Expr>, tag: Byte, m: Byte)
    requires |CompileMatch(funcs, st, values, tag, m).code| < 0x8000
    ensures Calm(st, CompileMatch(funcs, st, values, tag, m))
    decreases |values|
  {
    hide Calm, CompileTest;
    if values == [] {
      CalmSame(st, st);
    } else {
      var st1 := CompileTest(funcs, st, values[0], tag, m);
      var st2 := CompileMatch(funcs, st1, values[1..], tag, m);
      CalmMatch(funcs, st1, values[1..], tag, m);
      CalmLen(st1, st2);
      CalmTest(funcs, st, values[0], tag, m);
      CalmTrans(st, st1, st2);
    }
  }

  lemma {:induction false} NeatCaseFront(funcs: seq<FuncDecl>, st: CS, values: seq<Expr>, tag: Byte)
    requires |CaseFront(funcs, st, values, tag).code| < 0x8000
    ensures var st1 := CaseFront(funcs, st, values, tag);
      Neat(st, st1, {|st1.code| - 1}) && New(st, st1) == {} && |st.code| < |st1.code| && st1.loops == st.loops
  {
    hide Plain, Tidy, MakeAsBx, CompileMatch, Alloc, Free, Shape, SShape;
    var (st1, m) := Alloc(st);
    var st1a := Emit(st1, MakeABC(LOADB, m, 0, 0));
    var st2 := CompileMatch(funcs, st1a, values, tag, m);
    var j := MakeAsBx(JF, m, 0);
    var st3 := Emit(st2, j);
    var c := CaseFront(funcs, st, values, tag);
    assert c == Free(st3, m);
    SameRegs(st, 0);
    SameRegs(st3, m);
    CalmMatch(funcs, st1a, values, tag, m);
    PlainNone(st.code);
    PlainEmit(st.code, st1, {}, MakeABC(LOADB, m, 0, 0));
    PlainTrans(st.code, st1a.code, st2.code, {}, {});
    PlainHole(st.code, st2, {} + {}, j);
    ShapeCaseFront(funcs, st, values, tag);
    FromShape(st, c);
    ShapeLoops(st, c);
    var h: set<int> := {|st2.code|};
    assert {} + {} + {|st2.code|} == h;
    PlainTidy(st.code, c.code, h);
    NewNone(st, c);
    assert h + {} == h;
  }

  lemma {:induction false} NeatCase(funcs: seq<FuncDecl>, st: CS, c: Case, tag: Byte, brk: bool)
    requires StaysAll(c.body, brk) && (brk ==> Looping(st)) && |CompileCase(funcs, st, c, tag).0.code| < 0x8000
    ensures var (st', end) := CompileCase(funcs, st, c, tag);
      Neat(st, st', {end}) && (!brk ==> New(st, st') == {}) && end == |st'.code| - 1
    decreases c, 0
  {
    hide SShape, Tidy, New, Neat, Looping, CaseFront, CompileBlock, IfJoin, StaysAll;
    var st1 := CaseFront(funcs, st, c.values, tag);
    var st2 := CompileBlock(funcs, st1, c.body);
    JoinIs(st1, st2);
    SShapeBlock(funcs, st1, c.body);
    SLen(st1, st2);
    NeatCaseFront(funcs, st, c.values, tag);
    if brk {
      LoopsSame(st, st1, {|st1.code| - 1});
    }
    NeatBlock(funcs, st1, c.body, brk);
    NeatJoin(st, st1, st2);
  }

  lemma {:induction false} NeatCases(funcs: seq<FuncDecl>, st: CS, cases: seq<Case>, tag: Byte, brk: bool)
    requires StaysCases(cases, brk) && (brk ==> Looping(st)) && |CompileCases(funcs, st, cases, tag).0.code| < 0x8000
    ensures var (st', ends) := CompileCases(funcs, st, cases, tag);
      Neat(st, st', Elems(ends)) && (!brk ==> New(st, st') == {})
    decreases cases, 0
  {
    hide SShape, Tidy, New, Neat, Looping, CompileCase, StaysAll;
    if cases == [] {
      NeatNone(st);
      NewNone(st, st);
      assert Elems([]) == {};
    } else {
      var (st1, end) := CompileCase(funcs, st, cases[0], tag);
      var (st2, ends) := CompileCases(funcs, st1, cases[1..], tag);
      SShapeCases(funcs, st1, cases[1..], tag);
      SLen(st1, st2);
      NeatCase(funcs, st, cases[0], tag, brk);
      if brk {
        LoopsSame(st, st1, {end});
      }
      NeatCases(funcs, st1, cases[1..], tag, brk);
      NeatTrans(st, st1, st2, {end}, Elems(ends));
      ElemsCons(end, ends);
      NeatShape(st, st1, {end});
      NewTrans(st, st1, st2);
    }
  }

  lemma ElemsCons(x: int, s: seq<int>)
    ensures Elems([x] + s) == {x} + Elems(s)
  {
  }

  lemma {:induction false} NeatSwitch(funcs: seq<FuncDecl>, st: CS, s: Stmt, brk: bool)
    requires s.Switch? && Stays(s, brk) && (brk ==> Looping(st)) && |CompileSwitch(funcs, st, s).code| < 0x8000
    ensures Neat(st, CompileSwitch(funcs, st, s), {}) && (!brk ==> New(st, CompileSwitch(funcs, st, s)) == {})
    decreases s, 1
  {
    hide SShape, Tidy, New, Neat, Looping, CompileExpr, CompileCases, CompileBlock, Alloc, Free, PatchAll, Shape,
      StaysAll, StaysCases;
    var (st1, tr) := Alloc(st);
    var st2 := CompileExpr(funcs, st1, s.tag, tr);
    var (st3, ends) := CompileCases(funcs, st2, s.cases, tr);
    var st4 := if s.default.Default? then CompileBlock(funcs, st3, s.default.body) else st3;
    var st5 := PatchAll(st4, ends, |st4.code|);
    assert CompileSwitch(funcs, st, s) == Free(st5, tr);
    SameRegs(st, tr);
    SameRegs(st5, tr);
    PatchAllShape(st4, ends, |st4.code|);
    SShapeCases(funcs, st2, s.cases, tr);
    if s.default.Default? {
      SShapeBlock(funcs, st3, s.default.body);
    } else {
      SShapeRefl(st3);
    }
    SLen(st2, st3);
    SLen(st3, st4);
    SShapeSwitch(funcs, st, s);
    SwitchFront(funcs, st, s, st1, st2, tr);
    if brk {
      LoopsSame(st, st2, {});
    }
    NeatCases(funcs, st2, s.cases, tr, brk);
    if brk {
      LoopsSame(st2, st3, Elems(ends));
    }
    if s.default.Default? {
      NeatBlock(funcs, st3, s.default.body, brk);
    } else {
      NeatNone(st3);
      NewNone(st3, st3);
    }
    SwitchBack(st, st2, st3, st4, ends, Free(st5, tr));
  }

  lemma {:induction false} SwitchFront(funcs: seq<FuncDecl>, st: CS, s: Stmt, st1: CS, st2: CS, tr: Byte)
    requires s.Switch? && (st1, tr) == Alloc(st) && st2 == CompileExpr(funcs, st1, s.tag, tr) && |st2.code| < 0x8000
    ensures Neat(st, st2, {}) && New(st, st2) == {}
  {
    hide Tidy, SShape, Calm, CompileExpr, Alloc, Shape;
    SameRegs(st, 0);
    CalmInto(funcs, st, s.tag);
    ShapeExpr(funcs, st1, s.tag, tr);
    ShapeAlloc(st);
    ShapeTrans(st, st1, st2);
    FromShape(st, st2);
    ShapeLoops(st, st2);
    NeatFlat(st, st2);
  }

  /** The jumps out of the cases are filled. */
  lemma SwitchBack(st: CS, st2: CS, st3: CS, st4: CS, ends: seq<int>, c: CS)
    requires Neat(st, st2, {}) && New(st, st2) == {} && Neat(st2, st3, Elems(ends)) && Neat(st3, st4, {})
      && |st4.code| < 0x8000
    requires forall i :: i in ends ==> |st2.code| <= i < |st3.code| && !NewBreak(st2, st3, i) && Pending(st3.code[i])
    requires var st5 := PatchAll(st4, ends, |st4.code|); c.code == st5.code && c.loops == st5.loops && SShape(st, c)
    ensures Neat(st, c, {}) && New(st, c) == New(st2, st3) + New(st3, st4)
  {
    hide SShape, Tidy, New, Neat, PatchAll, Open, NewBreak;
    NeatShape(st, st2, {});
    NeatShape(st2, st3, Elems(ends));
    NeatShape(st3, st4, {});
    NeatLen(st, st2, {});
    NeatLen(st3, st4, {});
    NeatTrans(st, st2, st3, {}, Elems(ends));
    NeatTrans(st, st3, st4, {} + Elems(ends), {});
    var none: set<int> := {};
    assert none + Elems(ends) + none == Elems(ends);
    SShapeTrans(st, st2, st3);
    NewTrans(st, st2, st3);
    NewTrans(st, st3, st4);
    forall i | i in ends
      ensures 0 <= i < |st4.code| && Pending(st4.code[i]) && i !in New(st, st4)
    {
      NewIs(st2, st3, i);
      NewLater(st, st3, st4, i);
    }
    NeatOpenEnd(st, st4, Elems(ends));
    PatchAllShape(st4, ends, |st4.code|);
    NewSame(st, st4, c);
    EndsPatched(st, st4, ends, New(st, st4));
    NeatMake(st, c);
  }

  lemma NeatMake(st: CS, c: CS)
    requires SShape(st, c) && Tidy(st.code, c.code, New(st, c))
    ensures Neat(st, c, {})
  {
    hide SShape, Tidy, New;
    assert {} + New(st, c) == New(st, c);
  }

  /** Filling the ends leaves the breaks of the loop around, which are holes too. */
  lemma EndsPatched(st: CS, st4: CS, ends: seq<int>, news: set<int>)
    requires Neat(st, st4, Elems(ends)) && news == New(st, st4) && |st4.code| < 0x8000
    requires Open(st4.code, |st4.code|) == Open(st4.code, |st.code|)
    requires forall i :: i in ends ==> 0 <= i < |st4.code| && Pending(st4.code[i]) && i !in news
    ensures Tidy(st.code, PatchAll(st4, ends, |st4.code|).code, news)
  {
    hide SShape, Tidy, New, Open, PatchAll, MakeAsBx, ToI16, Instr.SBx;
    var t := |st4.code|;
    var d := PatchAll(st4, ends, t);
    PatchAllShape(st4, ends, t);
    forall i | 0 <= i < t
      ensures d.code[i].op == st4.code[i].op && (i in ends ==> i + 1 + d.code[i].SBx() == t)
    {
      if i in ends {
        PatchAllAims(st4, ends, t, i);
        Aimed(JMP, 0, i, t);
      }
    }
    TidySome(st.code, st4.code, d.code, Elems(ends), news, t);
  }

  // ---- try ----

  /** A protected block between its TRY and its ENDTRY: the TRY and the jump over the handler are holes. */
  lemma TidyTry(x: seq<Instr>, t: Instr, b: seq<Instr>, e: Instr, j: Instr)
    requires t.op == TRY && e.op == ENDTRY && j.op == JMP && Tidy(x + [t], b, {})
    ensures Tidy(x, b + [e] + [j], {|x|, |b| + 1})
  {
    var c := b + [e] + [j];
    TryOpen(x, t, b, e, j);
    hide Open, Aims;
    forall i | |x| <= i < |c| && Aims(c[i]) && i !in {|x|, |b| + 1}
      ensures Lands(c, i)
    {
      TryLands(x, t, b, e, j, i);
    }
  }

  lemma OpenNext(code: seq<Instr>, i: nat)
    requires i < |code|
    ensures code[i].op == TRY ==> Open(code, i + 1) == Open(code, i) + [i]
    ensures code[i].op == ENDTRY && Open(code, i) != [] ==> Open(code, i + 1) == Open(code, i)[..|Open(code, i)| - 1]
    ensures code[i].op != TRY && code[i].op != ENDTRY ==> Open(code, i + 1) == Open(code, i)
  {
  }

  lemma TidyGoes(a: seq<Instr>, b: seq<Instr>, h: set<int>)
    requires Tidy(a, b, h)
    ensures a <= b && Open(b, |b|) == Open(b, |a|)
  {
    hide Open, Lands, Aims;
  }

  lemma TidyKeeps(a: seq<Instr>, b: seq<Instr>, h: set<int>, i: nat)
    requires Tidy(a, b, h) && |a| <= i <= |b|
    ensures Open(b, |a|) <= Open(b, i)
  {
    hide Open, Lands, Aims;
  }

  lemma TryIn(x: seq<Instr>, t: Instr, b: seq<Instr>)
    requires t.op == TRY && x + [t] <= b
    ensures x <= b && |x| < |b| && Open(b, |x| + 1) == Open(b, |x|) + [|x|]
  {
    hide Open;
    assert b[|x|] == (x + [t])[|x|];
    assert x <= x + [t];
    OpenNext(b, |x|);
  }

  lemma TryOut(b: seq<Instr>, c: seq<Instr>, o: seq<nat>, p: nat)
    requires b <= c && |c| == |b| + 2 && c[|b|].op == ENDTRY && c[|b| + 1].op == JMP && Open(b, |b|) == o + [p]
    ensures Open(c, |b| + 1) == o && Open(c, |b| + 2) == o
  {
    hide Open;
    OpenPrefix(b, c, |b|);
    OpenNext(c, |b|);
    assert (o + [p])[..|o + [p]| - 1] == o;
    OpenNext(c, |b| + 1);
  }

  lemma TryEnds(x: seq<Instr>, t: Instr, b: seq<Instr>, e: Instr, j: Instr)
    requires t.op == TRY && e.op == ENDTRY && j.op == JMP && Tidy(x + [t], b, {})
    ensures x <= b && |x| < |b|
    ensures var c, o := b + [e] + [j], Open(b, |x|);
      && Open(b, |x| + 1) == o + [|x|]
      && Open(c, |x|) == o && Open(c, |b| + 1) == o && Open(c, |b| + 2) == o
  {
    hide Open, Lands, Goal, Tidy;
    TidyGoes(x + [t], b, {});
    var c := b + [e] + [j];
    TryIn(x, t, b);
    OpenPrefix(b, c, |x|);
    TryOut(b, c, Open(b, |x|), |x|);
  }

  lemma TryOpen(x: seq<Instr>, t: Instr, b: seq<Instr>, e: Instr, j: Instr)
    requires t.op == TRY && e.op == ENDTRY && j.op == JMP && Tidy(x + [t], b, {})
    ensures var c := b + [e] + [j];
      && x <= c && Open(c, |c|) == Open(c, |x|) && Open(c, |b| + 1) == Open(c, |x|)
      && (forall i :: |x| <= i <= |c| ==> Open(c, |x|) <= Open(c, i))
  {
    hide Open, Lands, Goal, Tidy;
    TryEnds(x, t, b, e, j);
    var c, o := b + [e] + [j], Open(b, |x|);
    forall i | |x| <= i <= |c|
      ensures o <= Open(c, i)
    {
      if |x| + 1 <= i <= |b| {
        OpenPrefix(b, c, i);
        TidyKeeps(x + [t], b, {}, i);
      }
    }
  }

  lemma TryLands(x: seq<Instr>, t: Instr, b: seq<Instr>, e: Instr, j: Instr, i: nat)
    requires t.op == TRY && e.op == ENDTRY && j.op == JMP && Tidy(x + [t], b, {})
    requires var c := b + [e] + [j]; |x| < i < |c| && i != |b| + 1 && Aims(c[i])
    ensures Lands(b + [e] + [j], i)
  {
    hide Open, Lands;
    var c := b + [e] + [j];
    if i < |b| {
      assert c[i] == b[i];
      LandsLater(b, c, i);
    }
  }

  lemma {:induction false} NeatTry(funcs: seq<FuncDecl>, st: CS, s: Stmt, brk: bool)
    requires s.Try? && Stays(s, brk) && (brk ==> Looping(st)) && |CompileTry(funcs, st, s).code| < 0x8000
    ensures Neat(st, CompileTry(funcs, st, s), {}) && (!brk ==> New(st, CompileTry(funcs, st, s)) == {})
    decreases s, 1
  {
    hide SShape, Tidy, New, Neat, Looping, CompileBlock, TryBody, Alloc, Free, PatchSbx, Open, StaysAll;
    var (st1, er) := Alloc(st);
    var st2 := TryBody(funcs, st1, s, er);
    var st2a := st2.(locals := st2.locals[s.errName := er]);
    var st3a := CompileBlock(funcs, st2a, s.handler);
    var st3 := st3a.(locals := st2.locals);
    var st4 := PatchSbx(st3, |st2.code| - 1, |st3.code| - |st2.code|);
    assert CompileTry(funcs, st, s) == Free(st4, er);
    SameRegs(st, er);
    SameRegs(st4, er);
    PatchLen(st3, |st2.code| - 1, |st3.code| - |st2.code|);
    SShapeBlock(funcs, st2a, s.handler);
    SLen(st2a, st3a);
    SShapeTry(funcs, st, s);
    NeatTryBody(funcs, st1, s, er);
    var ip := |st2.code| - 1;
    TryHandler(funcs, st, st1, st2, st2a, s, brk, ip);
    TryBack(st, st1, st2, st2a, st3a, ip, Free(st4, er));
  }

  /** The handler is compiled between the same TRYs as the whole statement. */
  lemma {:induction false} TryHandler(funcs: seq<FuncDecl>, st: CS, st1: CS, st2: CS, st2a: CS, s: Stmt, brk: bool,
    ip: int)
    requires s.Try? && StaysAll(s.handler, brk) && (brk ==> Looping(st)) && st1.code == st.code && st1.loops == st.loops
    requires Neat(st1, st2, {ip}) && st2a == st2.(locals := st2a.locals)
      && |CompileBlock(funcs, st2a, s.handler).code| < 0x8000
    ensures Neat(st2a, CompileBlock(funcs, st2a, s.handler), {})
      && (!brk ==> New(st2a, CompileBlock(funcs, st2a, s.handler)) == {})
    decreases s, 0
  {
    hide SShape, Tidy, New, Neat, CompileBlock, Open, StaysAll;
    if brk {
      assert Looping(st1);
      LoopsSame(st1, st2, {ip});
      assert Looping(st2a);
    }
    NeatBlock(funcs, st2a, s.handler, brk);
  }

  lemma TryBack(st: CS, st1: CS, st2: CS, st2a: CS, st3a: CS, ip: int, c: CS)
    requires st1.code == st.code && st1.loops == st.loops && Neat(st1, st2, {ip}) && New(st1, st2) == {}
      && 0 <= ip == |st2.code| - 1
    requires st2a.code == st2.code && st2a.loops == st2.loops && Neat(st2a, st3a, {}) && |st3a.code| < 0x8000
    requires var st4 := PatchSbx(st3a.(locals := st2.locals), ip, |st3a.code| - ip - 1);
      c.code == st4.code
      && c.loops == st4.loops
    requires SShape(st, c)
    ensures Neat(st, c, {}) && New(st, c) == New(st2a, st3a)
  {
    hide SShape, PatchSbx, Open;
    var st3 := st3a.(locals := st2.locals);
    assert Tidy(st.code, st2.code, {ip} + {});
    TidyTrans(st.code, st2.code, st3a.code, {ip} + {}, {} + New(st2a, st3a));
    var h := {ip} + {} + ({} + New(st2a, st3a));
    NewAfter(st2a, st3a, ip);
    TidyEnds(st.code, st3a.code, h);
    hide Tidy;
    TidyPatch(st.code, st3, h, ip, |st3.code|);
    assert h - {ip} == New(st2a, st3a);
    NewChain(st, st1, st2, st2a, st3a, c);
    NeatMake(st, c);
  }

  lemma NewChain(st: CS, st1: CS, st2: CS, st2a: CS, st3a: CS, c: CS)
    requires st1.loops == st.loops && SShape(st1, st2) && New(st1, st2) == {} && st2a.loops == st2.loops
      && SShape(st2a, st3a) && c.loops == st3a.loops
    ensures New(st, c) == New(st2a, st3a)
  {
    hide Inv, Keeps, Grows, Waiting;
    NoNew(Breaks(st1), Breaks(st2));
  }

  lemma NoNew(x: seq<int>, y: seq<int>)
    requires x <= y && Elems(y[|x|..]) == {}
    ensures x == y
  {
    hide Elems;
    if |x| < |y| {
      ElemsAny(y[|x|..]);
    }
  }

  lemma ElemsAny(s: seq<int>)
    requires s != []
    ensures Elems(s) != {}
  {
    assert s[0] in Elems(s);
  }

  lemma {:induction false} NeatTryBody(funcs: seq<FuncDecl>, st1: CS, s: Stmt, er: Byte)
    requires s.Try? && StaysAll(s.body, false) && |TryBody(funcs, st1, s, er).code| < 0x8000
    ensures var st2 := TryBody(funcs, st1, s, er);
      Neat(st1, st2, {|st2.code| - 1}) && New(st1, st2) == {} && |st1.code| < |st2.code|
    decreases s, 0
  {
    hide SShape, Tidy, New, Neat, CompileBlock, MakeAsBx, PatchSbx, Open, StaysAll, TryBody, TryJoin, TryTail;
    var t := MakeAsBx(TRY, er, 0);
    var a := Emit(st1, t);
    var b := CompileBlock(funcs, a, s.body);
    var d := TryTail(b);
    TryBodyIs(funcs, st1, s, er);
    TryJoinIs(st1, b);
    TryTailIs(b);
    PatchLen(d, |st1.code|, |b.code| + 1 - |st1.code|);
    SShapeTryBody(funcs, st1, s, er);
    NeatBlock(funcs, a, s.body, false);
    TryBodyTidy(st1, t, b, d);
  }

  lemma TryBodyTidy(st1: CS, t: Instr, b: CS, d: CS)
    requires t.op == TRY && Neat(Emit(st1, t), b, {}) && New(Emit(st1, t), b) == {} && |b.code| + 2 < 0x8000
    requires |d.code| == |b.code| + 2 && d == b.(code := d.code) && b.code <= d.code
    requires d.code[|b.code|].op == ENDTRY && Pending(d.code[|b.code| + 1])
    requires SShape(st1, PatchSbx(d, |st1.code|, |b.code| + 1 - |st1.code|))
    ensures var st2 := PatchSbx(d, |st1.code|, |b.code| + 1 - |st1.code|);
      Neat(st1, st2, {|st2.code| - 1}) && New(st1, st2) == {} && |st1.code| < |st2.code| && |st2.code| == |d.code|
  {
    hide SShape, PatchSbx, Tidy, New;
    var n := |b.code|;
    var st2 := PatchSbx(d, |st1.code|, n + 1 - |st1.code|);
    assert Emit(st1, t).code == st1.code + [t];
    TryFilled(st1, t, b, d);
    TryNew(st1, t, b, d, st2);
    assert {n + 1} + New(st1, st2) == {n + 1};
  }

  lemma TryNew(st1: CS, t: Instr, b: CS, d: CS, st2: CS)
    requires SShape(Emit(st1, t), b) && New(Emit(st1, t), b) == {} && st2.loops == b.loops
    ensures New(st1, st2) == {}
  {
    hide SShape, New;
    SShapeRefl(st1);
    NewNone(st1, st1);
    NewChain(st1, st1, st1, Emit(st1, t), b, st2);
  }

  lemma TryFilled(st1: CS, t: Instr, b: CS, d: CS)
    requires t.op == TRY && Tidy(st1.code + [t], b.code, {} + {}) && |b.code| + 2 < 0x8000
    requires |d.code| == |b.code| + 2 && b.code <= d.code
    requires d.code[|b.code|].op == ENDTRY && Pending(d.code[|b.code| + 1])
    ensures var st2 := PatchSbx(d, |st1.code|, |b.code| + 1 - |st1.code|);
      Tidy(st1.code, st2.code, {|b.code| + 1}) && |st1.code| < |b.code| && |st2.code| == |d.code|
        && st2.loops == d.loops
  {
    hide Tidy, PatchSbx, Open;
    var n := |b.code|;
    var none: set<int> := {};
    assert none + none == none;
    assert d.code == b.code + [d.code[n]] + [d.code[n + 1]];
    TidyGoes(st1.code + [t], b.code, {});
    TidyTry(st1.code, t, b.code, d.code[n], d.code[n + 1]);
    var h := {|st1.code|, n + 1};
    TidyGoes(st1.code, d.code, h);
    TidyPatch(st1.code, d, h, |st1.code|, n + 2);
    assert h - {|st1.code|} == {n + 1};
  }

  // ---- functions and programs ----

  predicate StaysInside(funcs: seq<FuncDecl>) { forall i :: 0 <= i < |funcs| ==> StaysAll(funcs[i].body, false) }

  lemma {:induction false} BodyBalanced(funcs: seq<FuncDecl>, pool: seq<Constant>, f: FuncDecl)
    requires StaysAll(f.body, false) && |CompileBody(funcs, pool, f).code| < 0x8000
    ensures Balanced(CompileBody(funcs, pool, f).code)
  {
    hide SShape, Tidy, New, Neat, CompileBlock, StaysAll, Balanced;
    var st0 := InitCS(pool, f.params);
    var b := CompileBlock(funcs, st0, f.body);
    var c := Emit(b, MakeABC(RETN, 0, 0, 0));
    NeatBlock(funcs, st0, f.body, false);
    NeatEmit(b, MakeABC(RETN, 0, 0, 0));
    NeatTrans(st0, b, c, {}, {});
    NeatShape(st0, b, {});
    NeatShape(b, c, {});
    NewTrans(st0, b, c);
    NewNone(b, c);
    TidyBalanced(st0, c);
  }

  lemma TidyBalanced(st0: CS, c: CS)
    requires st0.code == [] && Neat(st0, c, {} + {}) && New(st0, c) == {} + {}
    ensures Balanced(c.code)
  {
    hide SShape, Open;
  }
}

/** Over whole runs: compiled programs keep the handler discipline at every step. */
module HandlerDiscipline {
  import opened Bytecode
  import opened Ast
  import opened Vm
  import opened Compiler
  import opened CompilerCorrect
  import opened Handlers
  import opened HandlersCompiled
  import opened StmtSimple
  import HandlersExact

  /** What the compiler theorem asks of a program is more. */
  lemma {:induction false} SafeStays(s: Stmt, vars: set<Text>, brk: bool, inTry: bool)
    requires SafeStmt(s, vars, brk, inTry)
    ensures Stays(s, brk)
    decreases s, 1
  {
    hide SafeStmts, StaysAll;
    match s
    case Block(ss) => SafeStaysAll(ss, vars, brk, inTry);
    case If(_, thn, els) =>
      SafeStaysAll(thn, vars, brk, inTry);
      if els.Some? {
        SafeStays(els.value, vars, brk, inTry);
      }
    case While(_, body) => SafeStaysAll(body, vars, true, inTry);
    case Switch(_, cases, default) =>
      SafeStaysCases(cases, vars, brk, inTry);
      if default.Default? {
        SafeStaysAll(default.body, vars, brk, inTry);
      }
    case Try(body, name, handler) =>
      SafeStaysAll(body, vars, false, true);
      SafeStaysAll(handler, vars + {name}, brk, inTry);
    case _ =>
  }

  lemma {:induction false} SafeStaysAll(ss: seq<Stmt>, vars: set<Text>, brk: bool, inTry: bool)
    requires SafeStmts(ss, vars, brk, inTry)
    ensures StaysAll(ss, brk)
    decreases ss, 0
  {
    hide SafeStmt, Stays;
    if ss != [] {
      SafeStays(ss[0], vars, brk, inTry);
      SafeStaysAll(ss[1..], vars + Declared(ss[0]), brk, inTry);
    }
  }

  lemma {:induction false} SafeStaysCases(cases: seq<Case>, vars: set<Text>, brk: bool, inTry: bool)
    requires SafeCases(cases, vars, brk, inTry)
    ensures StaysCases(cases, brk)
    decreases cases, 0
  {
    hide SafeStmts, StaysAll;
    if cases != [] {
      SafeStaysAll(cases[0].body, vars, brk, inTry);
      SafeStaysCases(cases[1..], vars, brk, inTry);
    }
  }

  lemma {:induction false} SafeInside(funcs: seq<FuncDecl>)
    requires Safe(funcs)
    ensures StaysInside(funcs)
  {
    hide SafeStmts, StaysAll;
    forall i | 0 <= i < |funcs|
      ensures StaysAll(funcs[i].body, false)
    {
      SafeStaysAll(funcs[i].body, ParamSet(funcs[i].params), false, false);
    }
  }

  /**
   All the functions of a compiled chunk are balanced exactly when no break or continue in any of them leaves the body
   of a try.
   */
  lemma {:induction false} ChunkExact(ch: Chunk, funcs: seq<FuncDecl>)
    requires Fits(funcs) && IsChunkOf(ch, funcs)
    ensures AllBalanced(ch) <==> StaysInside(funcs)
  {
    hide CompileBody, CompileFuncs, Balanced, StaysAll, Ascii, FuncIndex;
    UnitSize(funcs, |funcs|);
    forall p | 0 <= p < |ch.protos|
      ensures Balanced(ch.protos[p].code) <==> StaysAll(funcs[p].body, false)
    {
      UnitAt(funcs, |funcs|, p);
      HandlersExact.BalancedExact(funcs, CompileFuncs(funcs, p).pool, funcs[p]);
    }
  }

  /**
   Whatever the natives and operations do, after any number of steps every frame, suspended ones included, has on its
   handler stack exactly the catch points of the TRYs its ip stands between, innermost last.
   */
  lemma {:induction false} DisciplineKept(env: Env, ch: Chunk, funcs: seq<FuncDecl>, arg: Value,
    globals: map<Text, Value>, n: nat)
    requires Fits(funcs) && StaysInside(funcs) && IsChunkOf(ch, funcs)
    ensures StateOk(ch, Run(env, ch, Start(env, ch, arg, globals), n))
  {
    hide *;
    ChunkExact(ch, funcs);
    StartOk(env, ch, arg, globals);
    RunOk(env, ch, Start(env, ch, arg, globals), n);
  }

  lemma FramesAt(ch: Chunk, s: State)
    requires StateOk(ch, s) && s.Running?
    ensures FramesOk(ch, s.vm.frames)
  {
  }

  /**
   So an error raised at any step that is caught is caught by the innermost TRY around the innermost frame that has
   one.
   */
  lemma {:induction false} CaughtInnermost(env: Env, ch: Chunk, funcs: seq<FuncDecl>, arg: Value,
    globals: map<Text, Value>, n: nat, msg: Text)
    returns (at: nat)
    requires Fits(funcs) && StaysInside(funcs) && IsChunkOf(ch, funcs)
    requires Run(env, ch, Start(env, ch, arg, globals), n).Running?
    ensures var fs := Run(env, ch, Start(env, ch, arg, globals), n).vm.frames;
      FramesOk(ch, fs)
      && CaughtAt(ch, fs, msg, at)
  {
    hide *;
    DisciplineKept(env, ch, funcs, arg, globals, n);
    var s := Run(env, ch, Start(env, ch, arg, globals), n);
    FramesAt(ch, s);
    at := ResumesInnermost(ch, s.vm.frames, msg);
  }
}
