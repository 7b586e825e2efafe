/** What can be seen of a run, whether it ends or not: the operations and native calls it begins with. */
module Traces {
  import opened Bytecode
  import opened Vm

  function TraceOf(s: State): Trace { if s.Running? then s.vm.trace else s.trace }

  /** The events of the run from s begin with tr. */
  ghost predicate Begins(env: Env, ch: Chunk, s: State, tr: Trace) {
    exists n: nat :: tr <= TraceOf(Run(env, ch, s, n))
  }

  lemma {:induction false} FinishGrows(env: Env, ch: Chunk, vm: VM, out: Outcome)
    ensures vm.trace <= TraceOf(Finish(env, ch, vm, out))
    decreases |vm.callers|, 1
  {
    if vm.callers != [] {
      var c := vm.callers[|vm.callers| - 1];
      EnterGrows(env, ch, vm.(frames := c.frames, callers := vm.callers[..|vm.callers| - 1]), c.id, c.args,
        c.answers + [out], c.retReg);
    }
  }

  lemma {:induction false} EnterGrows(env: Env, ch: Chunk, vm: VM, id: nat, args: seq<Value>, answers: seq<Outcome>,
    retReg: nat)
    ensures vm.trace <= TraceOf(Enter(env, ch, vm, id, args, answers, retReg))
    decreases |vm.callers|, 2
  {
    hide Unwind;
    var e := CallNative(id, args, answers);
    match env.native(vm.trace, e)
    case Return(_) =>
    case Fail(msg) => FinishGrows(env, ch, vm.(trace := vm.trace + [e]), Err(msg));
    case CallBack(_, _, _) =>
  }

  lemma RaiseGrows(env: Env, ch: Chunk, vm: VM, msg: Text)
    ensures vm.trace <= TraceOf(Raise(env, ch, vm, msg))
  {
    hide Unwind, Finish;
    FinishGrows(env, ch, vm, Err(msg));
  }

  lemma ReturnGrows(env: Env, ch: Chunk, vm: VM, v: Value)
    requires vm.frames != []
    ensures vm.trace <= TraceOf(DoReturn(env, ch, vm, v))
  {
    hide Finish, Release;
    var f := vm.frames[|vm.frames| - 1];
    FinishGrows(env, ch, vm.(frames := vm.frames[..|vm.frames| - 1], cells := Release(vm.cells, f.ups)), Ok(v));
  }

  lemma PrimGrows(env: Env, ch: Chunk, vm: VM, f: Frame, op: Byte, operands: seq<Value>, a: Byte)
    requires vm.frames != []
    ensures vm.trace <= TraceOf(DoPrim(env, ch, vm, f, op, operands, a))
  {
    hide Raise;
    var e := Prim(op, operands);
    match env.prim(vm.trace, e)
    case Ok(_) =>
    case Err(msg) => RaiseGrows(env, ch, SetTop(vm.(trace := vm.trace + [e]), f), msg);
  }

  lemma CallGrows(env: Env, ch: Chunk, vm: VM, f: Frame, ins: Instr)
    requires vm.frames != []
    ensures vm.trace <= TraceOf(DoCall(env, ch, vm, f, ins))
  {
    hide Raise, Enter, Range, NewFrame, TypeName, Ascii;
    var vm0 := SetTop(vm, f);
    match Get(f.regs, ins.b)
    case Native(id) => EnterGrows(env, ch, vm0, id, Range(f.regs, ins.b + 1, ins.c), [], ins.a);
    case Func(_, _) => RaiseGrows(env, ch, vm0, Ascii("nil func"));
    case v => RaiseGrows(env, ch, vm0, Ascii("cannot call ") + TypeName(v));
  }

  lemma ConstGrows(env: Env, ch: Chunk, vm: VM, f: Frame, ins: Instr, k: Constant)
    requires vm.frames != []
    ensures vm.trace <= TraceOf(WithConst(env, ch, vm, f, ins, k))
  {
    hide DoPrim, Finish, Ascii, ConstText;
    PrimGrows(env, ch, vm, f, GETK, [Get(f.regs, ins.b), Str(ConstText(env, k))], ins.a);
    PrimGrows(env, ch, vm, f, SETK, [Get(f.regs, ins.a), Str(ConstText(env, k)), Get(f.regs, ins.c)], ins.a);
    FinishGrows(env, ch, vm, Err(Ascii("unknown module ") + env.quote(ConstText(env, k))));
    FinishGrows(env, ch, vm, Err(ConstText(env, k)));
  }

  lemma BadConstGrows(env: Env, ch: Chunk, vm: VM, f: Frame, ins: Instr)
    requires vm.frames != []
    ensures vm.trace <= TraceOf(BadConst(env, ch, vm, f, ins))
  {
    hide Finish, Ascii, BadConstText;
    FinishGrows(env, ch, vm, Err(Ascii("assertion failed")));
    FinishGrows(env, ch, vm, Err(BadConstText(ins)));
  }

  lemma OtherGrows(env: Env, ch: Chunk, vm: VM, f: Frame, ins: Instr)
    requires vm.frames != []
    ensures vm.trace <= TraceOf(ExecOther(env, ch, vm, f, ins))
  {
    hide Finish, Raise, DoReturn, Ascii, Digits, UnknownText, Range, Cells, Get, Instr.SBx, Instr.Bx, AsStr;
    forall out
      ensures vm.trace <= TraceOf(Finish(env, ch, vm, out))
    {
      FinishGrows(env, ch, vm, out);
    }
    ReturnGrows(env, ch, SetTop(vm, f), Get(f.regs, ins.a));
    ReturnGrows(env, ch, SetTop(vm, f), Null);
    RaiseGrows(env, ch, SetTop(vm, f), AsStr(env, vm.trace, Get(f.regs, ins.a)));
  }

  lemma ExecGrows(env: Env, ch: Chunk, vm: VM, f: Frame, ins: Instr)
    requires vm.frames != []
    ensures vm.trace <= TraceOf(Exec(env, ch, vm, f, ins))
  {
    hide DoPrim, WithConst, BadConst, DoCall, ExecOther, Taken, Operands, Instr.SBx;
    PrimGrows(env, ch, vm, f, ins.op, Operands(f.regs, ins), ins.a);
    BadConstGrows(env, ch, vm, f, ins);
    if ConstIndex(ins) < |ch.consts| {
      ConstGrows(env, ch, vm, f, ins, ch.consts[ConstIndex(ins)]);
    }
    CallGrows(env, ch, vm, f, ins);
    OtherGrows(env, ch, vm, f, ins);
  }

  /** No step takes back an event. */
  lemma StepGrows(env: Env, ch: Chunk, s: State)
    ensures TraceOf(s) <= TraceOf(Step(env, ch, s))
  {
    hide Finish, Exec, Release, Ascii;
    if s.Running? {
      var vm := s.vm;
      FinishGrows(env, ch, vm, Ok(Null));
      FinishGrows(env, ch, vm, Err(Ascii("CallClosure: nil closure")));
      if vm.frames != [] {
        var f := vm.frames[|vm.frames| - 1];
        FinishGrows(env, ch, vm.(cells := Release(vm.cells, f.ups)), Ok(Null));
        if 0 <= f.ip < |Code(ch, f.proto)| {
          ExecGrows(env, ch, vm, f.(ip := f.ip + 1), Code(ch, f.proto)[f.ip]);
        }
      }
    }
  }

  lemma {:induction false} RunGrows(env: Env, ch: Chunk, s: State, m: nat, n: nat)
    requires m <= n
    ensures TraceOf(Run(env, ch, s, m)) <= TraceOf(Run(env, ch, s, n))
    decreases n - m
  {
    hide Step;
    if m < n {
      RunAdd(env, ch, s, m, 1);
      StepGrows(env, ch, Run(env, ch, s, m));
      assert Run(env, ch, Run(env, ch, s, m), 1) == Step(env, ch, Run(env, ch, s, m));
      RunGrows(env, ch, s, m + 1, n);
    }
  }

  /** A run that shows tr some time shows it from then on. */
  lemma BeginsLater(env: Env, ch: Chunk, s: State, tr: Trace, m: nat, n: nat)
    requires tr <= TraceOf(Run(env, ch, s, m)) && (m <= n || Run(env, ch, s, n).Halted?)
    ensures tr <= TraceOf(Run(env, ch, s, n))
  {
    hide Run;
    if m <= n {
      RunGrows(env, ch, s, m, n);
    } else {
      HaltedLater(env, ch, s, n, m);
    }
  }

  /** A run begins in one way only: of two beginnings one is a beginning of the other. */
  lemma OneHistory(env: Env, ch: Chunk, s: State, a: Trace, b: Trace)
    requires Begins(env, ch, s, a) && Begins(env, ch, s, b)
    ensures a <= b || b <= a
  {
    hide Run;
    var m: nat :| a <= TraceOf(Run(env, ch, s, m));
    var n: nat :| b <= TraceOf(Run(env, ch, s, n));
    var z := if m < n then n else m;
    BeginsLater(env, ch, s, a, m, z);
    BeginsLater(env, ch, s, b, n, z);
    var t := TraceOf(Run(env, ch, s, z));
    assert t[..|a|] == a && t[..|b|] == b;
  }
}
