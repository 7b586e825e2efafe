/** What one instruction does to the running frame, in the terms of the source semantics. */
module MachineSteps {
  import opened Bytecode
  import opened Vm
  import opened Semantics

  /** A program and the chunk it runs as. */
  datatype Job = Job(P: Prog, ch: Chunk)

  /** What does not change while one statement of a frame runs: the frames below, the suspended levels, and the
      running frame's code, return register and handlers. */
  datatype Ctl = Ctl(rest: seq<Frame>, callers: seq<Caller>, proto: nat, ups: Upvals, retReg: nat, tries: seq<TryFrame>)

  function Top(k: Ctl, ip: int, regs: Regs): Frame { Frame(k.proto, ip, regs, k.ups, k.retReg, k.tries) }

  function MkVM(k: Ctl, ip: int, regs: Regs, w: World): VM {
    VM(k.rest + [Top(k, ip, regs)], k.callers, w.globals, [], w.trace)
  }

  /** The machine about to execute instruction ip of the running frame. */
  function At(k: Ctl, ip: int, regs: Regs, w: World): State { Running(MkVM(k, ip, regs, w)) }

  /** The machine that has just raised an error in the running frame. */
  function Throwing(J: Job, k: Ctl, regs: Regs, w: World, msg: Text): State {
    Raise(J.P.env, J.ch, MkVM(k, 0, regs, w), msg)
  }

  /** The machine that has just returned v from the running frame. */
  function Returned(J: Job, k: Ctl, w: World, v: Value): State {
    DoReturn(J.P.env, J.ch, MkVM(k, 0, map[], w), v)
  }

  ghost predicate Goes(J: Job, s: State, n: nat, t: State) { Run(J.P.env, J.ch, s, n) == t }

  /** After m steps the machine is running, with the globals and the trace of w. */
  ghost predicate Shows(J: Job, s: State, m: nat, w: World) {
    var t := Run(J.P.env, J.ch, s, m);
    t.Running? && t.vm.globals == w.globals && t.vm.trace == w.trace
  }

  /** The machine shows w after n steps or more. */
  ghost predicate Lives(J: Job, s: State, n: nat, w: World) { exists m: nat :: m >= n && Shows(J, s, m, w) }

  ghost predicate Fetches(J: Job, k: Ctl, ip: int, ins: Instr) {
    k.proto < |J.ch.protos| && 0 <= ip < |J.ch.protos[k.proto].code| && J.ch.protos[k.proto].code[ip] == ins
  }

  lemma GoesTrans(J: Job, s: State, m: nat, t: State, n: nat, u: State)
    requires Goes(J, s, m, t) && Goes(J, t, n, u)
    ensures Goes(J, s, m + n, u)
  {
    RunAdd(J.P.env, J.ch, s, m, n);
  }

  lemma LivesAfter(J: Job, s: State, m: nat, t: State, n: nat, w: World)
    requires Goes(J, s, m, t) && Lives(J, t, n, w)
    ensures Lives(J, s, m + n, w) && Lives(J, s, n, w)
  {
    var q: nat :| q >= n && Shows(J, t, q, w);
    RunAdd(J.P.env, J.ch, s, m, q);
    assert Shows(J, s, m + q, w);
  }

  lemma LivesMono(J: Job, s: State, m: nat, n: nat, w: World)
    requires m <= n && Lives(J, s, n, w)
    ensures Lives(J, s, m, w)
  {
  }

  lemma LivesZero(J: Job, k: Ctl, ip: int, regs: Regs, w: World)
    ensures Lives(J, At(k, ip, regs, w), 0, w)
  {
    assert Shows(J, At(k, ip, regs, w), 0, w);
  }

  lemma GoesZero(J: Job, s: State)
    ensures Goes(J, s, 0, s)
  {
  }

  lemma GoesOne(J: Job, s: State, t: State)
    requires Step(J.P.env, J.ch, s) == t
    ensures Goes(J, s, 1, t)
  {
    hide Step;
    assert Run(J.P.env, J.ch, t, 0) == t;
  }

  lemma FetchStep(J: Job, k: Ctl, ip: int, regs: Regs, w: World, ins: Instr)
    requires Fetches(J, k, ip, ins)
    ensures Step(J.P.env, J.ch, At(k, ip, regs, w)) ==
      Exec(J.P.env, J.ch, MkVM(k, ip, regs, w), Top(k, ip + 1, regs), ins)
  {
    hide Exec;
  }

  lemma SetTopMk(k: Ctl, ip: int, regs: Regs, w: World, f: Frame)
    ensures SetTop(MkVM(k, ip, regs, w), f) == VM(k.rest + [f], k.callers, w.globals, [], w.trace)
  {
    assert (k.rest + [Top(k, ip, regs)])[..|k.rest|] == k.rest;
  }

  /** Raising looks at the running frame's handlers, not at its ip. */
  lemma RaiseTop(J: Job, k: Ctl, ip: int, regs: Regs, w: World, msg: Text)
    ensures Raise(J.P.env, J.ch, MkVM(k, ip, regs, w), msg) == Throwing(J, k, regs, w, msg)
  {
    assert (k.rest + [Top(k, ip, regs)])[..|k.rest|] == k.rest;
    assert (k.rest + [Top(k, 0, regs)])[..|k.rest|] == k.rest;
    hide Enter;
  }

  lemma StepPrim(J: Job, k: Ctl, ip: int, regs: Regs, w: World, ins: Instr)
    requires Fetches(J, k, ip, ins) && IsPrim(ins.op)
    ensures var r := Ask(J.P, ins.op, Operands(regs, ins), w);
      && (r.Val? ==> Goes(J, At(k, ip, regs, w), 1, At(k, ip + 1, regs[ins.a := r.v], r.w)))
      && (r.Fails? ==> Goes(J, At(k, ip, regs, w), 1, Throwing(J, k, regs, r.w, r.msg)))
      && !r.Timeout?
  {
    hide Raise;
    hide Operands;
    FetchStep(J, k, ip, regs, w, ins);
    AskPrim(J, k, ip, regs, w, ins.op, Operands(regs, ins), ins.a);
    GoesOne(J, At(k, ip, regs, w), DoPrim(J.P.env, J.ch, MkVM(k, ip, regs, w), Top(k, ip + 1, regs), ins.op,
      Operands(regs, ins), ins.a));
  }

  lemma AskPrim(J: Job, k: Ctl, ip: int, regs: Regs, w: World, op: Byte, operands: seq<Value>, a: Byte)
    ensures var r := Ask(J.P, op, operands, w);
      var s := DoPrim(J.P.env, J.ch, MkVM(k, ip, regs, w), Top(k, ip + 1, regs), op, operands, a);
      && (r.Val? ==> s == At(k, ip + 1, regs[a := r.v], r.w))
      && (r.Fails? ==> s == Throwing(J, k, regs, r.w, r.msg))
      && !r.Timeout?
  {
    var r := Ask(J.P, op, operands, w);
    var w1 := w.(trace := w.trace + [Prim(op, operands)]);
    if r.Val? {
      SetTopMk(k, ip, regs, w1, Top(k, ip + 1, regs[a := r.v]));
    } else {
      SetTopMk(k, ip, regs, w1, Top(k, ip + 1, regs));
      RaiseTop(J, k, ip + 1, regs, w1, r.msg);
    }
    hide Raise;
  }

  /** GETK and SETK: the key comes from the pool. */
  lemma StepKey(J: Job, k: Ctl, ip: int, regs: Regs, w: World, ins: Instr, name: Text)
    requires Fetches(J, k, ip, ins) && (ins.op == GETK || ins.op == SETK)
    requires ConstIndex(ins) < |J.ch.consts| && J.ch.consts[ConstIndex(ins)] == CStr(name)
    ensures var operands := if ins.op == GETK then [Get(regs, ins.b), Str(name)]
      else [Get(regs, ins.a), Str(name), Get(regs, ins.c)];
      var r := Ask(J.P, ins.op, operands, w);
      && (r.Val? ==> Goes(J, At(k, ip, regs, w), 1, At(k, ip + 1, regs[ins.a := r.v], r.w)))
      && (r.Fails? ==> Goes(J, At(k, ip, regs, w), 1, Throwing(J, k, regs, r.w, r.msg)))
      && !r.Timeout?
  {
    hide Raise;
    hide DoPrim;
    var operands := if ins.op == GETK then [Get(regs, ins.b), Str(name)]
      else [Get(regs, ins.a), Str(name), Get(regs, ins.c)];
    FetchStep(J, k, ip, regs, w, ins);
    AskPrim(J, k, ip, regs, w, ins.op, operands, ins.a);
    GoesOne(J, At(k, ip, regs, w), DoPrim(J.P.env, J.ch, MkVM(k, ip, regs, w), Top(k, ip + 1, regs), ins.op, operands,
      ins.a));
  }

  lemma StepLoadK(J: Job, k: Ctl, ip: int, regs: Regs, w: World, ins: Instr)
    requires Fetches(J, k, ip, ins) && ins.op == LOADK && ins.Bx() < |J.ch.consts|
    ensures Goes(J, At(k, ip, regs, w), 1, At(k, ip + 1, regs[ins.a := ConstToValue(J.ch.consts[ins.Bx()])], w))
  {
    FetchStep(J, k, ip, regs, w, ins);
    SetTopMk(k, ip, regs, w, Top(k, ip + 1, regs[ins.a := ConstToValue(J.ch.consts[ins.Bx()])]));
    GoesOne(J, At(k, ip, regs, w), At(k, ip + 1, regs[ins.a := ConstToValue(J.ch.consts[ins.Bx()])], w));
  }

  lemma StepLoadG(J: Job, k: Ctl, ip: int, regs: Regs, w: World, ins: Instr, name: Text)
    requires Fetches(J, k, ip, ins) && ins.op == LOADG && ins.Bx() < |J.ch.consts|
      && J.ch.consts[ins.Bx()] == CStr(name)
    ensures Goes(J, At(k, ip, regs, w), 1,
              At(k, ip + 1, regs[ins.a := if name in w.globals then w.globals[name] else Null], w))
  {
    var v := if name in w.globals then w.globals[name] else Null;
    FetchStep(J, k, ip, regs, w, ins);
    SetTopMk(k, ip, regs, w, Top(k, ip + 1, regs[ins.a := v]));
    GoesOne(J, At(k, ip, regs, w), At(k, ip + 1, regs[ins.a := v], w));
  }

  lemma StepStoreG(J: Job, k: Ctl, ip: int, regs: Regs, w: World, ins: Instr, name: Text)
    requires Fetches(J, k, ip, ins) && ins.op == STOREG && ins.Bx() < |J.ch.consts|
      && J.ch.consts[ins.Bx()] == CStr(name)
    ensures Goes(J, At(k, ip, regs, w), 1, At(k, ip + 1, regs, w.(globals := w.globals[name := Get(regs, ins.a)])))
  {
    FetchStep(J, k, ip, regs, w, ins);
    SetTopMk(k, ip, regs, w, Top(k, ip + 1, regs));
    GoesOne(J, At(k, ip, regs, w), At(k, ip + 1, regs, w.(globals := w.globals[name := Get(regs, ins.a)])));
  }

  /** The value that a register-only load leaves in R[A]. */
  function Loaded(regs: Regs, ins: Instr): Value {
    if ins.op == LOADI then Int(ins.SBx())
    else if ins.op == LOADB then Bool(ins.b != 0)
    else if ins.op == MOVE then Get(regs, ins.b)
    else if ins.op == MAKEFN then Func(ins.Bx(), NoUpvals)
    else Null
  }

  lemma ExecLoad(env: Env, ch: Chunk, vm: VM, f: Frame, ins: Instr)
    requires vm.frames != []
    requires ins.op == LOADI || ins.op == LOADB || ins.op == LOADN || ins.op == MOVE
      || (ins.op == MAKEFN && ins.Bx() < |ch.protos|)
    ensures Exec(env, ch, vm, f, ins) == Running(SetTop(vm, f.(regs := f.regs[ins.a := Loaded(f.regs, ins)])))
  {
    hide DoPrim, DoCall, WithConst, BadConst, Operands, Taken, Finish, Raise, DoReturn, SetTop, Cells, Vm.Range, AsStr,
      Ascii, Digits, UnknownText, ToI16;
  }

  lemma StepLoad(J: Job, k: Ctl, ip: int, regs: Regs, w: World, ins: Instr)
    requires Fetches(J, k, ip, ins)
    requires ins.op == LOADI || ins.op == LOADB || ins.op == LOADN || ins.op == MOVE
      || (ins.op == MAKEFN && ins.Bx() < |J.ch.protos|)
    ensures Goes(J, At(k, ip, regs, w), 1, At(k, ip + 1, regs[ins.a := Loaded(regs, ins)], w))
  {
    hide Exec, SetTop, Step, Loaded, Instr.Bx;
    FetchStep(J, k, ip, regs, w, ins);
    ExecLoad(J.P.env, J.ch, MkVM(k, ip, regs, w), Top(k, ip + 1, regs), ins);
    SetTopMk(k, ip, regs, w, Top(k, ip + 1, regs[ins.a := Loaded(regs, ins)]));
    GoesOne(J, At(k, ip, regs, w), At(k, ip + 1, regs[ins.a := Loaded(regs, ins)], w));
  }

  lemma StepJump(J: Job, k: Ctl, ip: int, regs: Regs, w: World, ins: Instr)
    requires Fetches(J, k, ip, ins) && IsJump(ins.op)
    ensures Goes(J, At(k, ip, regs, w), 1,
              At(k, if Taken(J.P.env, w.trace, regs, ins) then ip + 1 + ins.SBx() else ip + 1, regs, w))
  {
    hide ToI16;
    hide Taken;
    var ip' := if Taken(J.P.env, w.trace, regs, ins) then ip + 1 + ins.SBx() else ip + 1;
    FetchStep(J, k, ip, regs, w, ins);
    SetTopMk(k, ip, regs, w, Top(k, ip', regs));
    GoesOne(J, At(k, ip, regs, w), At(k, ip', regs, w));
  }

  lemma ExecReturn(env: Env, ch: Chunk, vm: VM, f: Frame, ins: Instr)
    requires vm.frames != [] && (ins.op == RET || ins.op == RETN)
    ensures Exec(env, ch, vm, f, ins) == DoReturn(env, ch, SetTop(vm, f), if ins.op == RET then Get(f.regs, ins.a)
      else Null)
  {
    hide DoPrim, DoCall, WithConst, BadConst, Operands, Taken, Finish, Raise, DoReturn, SetTop, Cells, Vm.Range, AsStr,
      Ascii, Digits, UnknownText, ToI16;
  }

  lemma ReturnTop(J: Job, k: Ctl, ip: int, regs: Regs, w: World, v: Value)
    ensures DoReturn(J.P.env, J.ch, SetTop(MkVM(k, ip, regs, w), Top(k, ip + 1, regs)), v) == Returned(J, k, w, v)
  {
    hide Finish, Release;
    SetTopMk(k, ip, regs, w, Top(k, ip + 1, regs));
    assert (k.rest + [Top(k, ip + 1, regs)])[..|k.rest|] == k.rest;
    assert (k.rest + [Top(k, 0, map[])])[..|k.rest|] == k.rest;
  }

  lemma StepReturn(J: Job, k: Ctl, ip: int, regs: Regs, w: World, ins: Instr)
    requires Fetches(J, k, ip, ins) && (ins.op == RET || ins.op == RETN)
    ensures Goes(J, At(k, ip, regs, w), 1, Returned(J, k, w, if ins.op == RET then Get(regs, ins.a) else Null))
  {
    hide Exec, DoReturn, SetTop, Returned, Step;
    var v := if ins.op == RET then Get(regs, ins.a) else Null;
    FetchStep(J, k, ip, regs, w, ins);
    ExecReturn(J.P.env, J.ch, MkVM(k, ip, regs, w), Top(k, ip + 1, regs), ins);
    ReturnTop(J, k, ip, regs, w, v);
    GoesOne(J, At(k, ip, regs, w), Returned(J, k, w, v));
  }

  lemma StepThrow(J: Job, k: Ctl, ip: int, regs: Regs, w: World, ins: Instr)
    requires Fetches(J, k, ip, ins) && ins.op == THROW
    ensures Goes(J, At(k, ip, regs, w), 1, Throwing(J, k, regs, w, AsStr(J.P.env, w.trace, Get(regs, ins.a))))
  {
    hide Raise;
    hide AsStr;
    FetchStep(J, k, ip, regs, w, ins);
    SetTopMk(k, ip, regs, w, Top(k, ip + 1, regs));
    RaiseTop(J, k, ip + 1, regs, w, AsStr(J.P.env, w.trace, Get(regs, ins.a)));
    GoesOne(J, At(k, ip, regs, w), Throwing(J, k, regs, w, AsStr(J.P.env, w.trace, Get(regs, ins.a))));
  }

  lemma StepTry(J: Job, k: Ctl, ip: int, regs: Regs, w: World, ins: Instr)
    requires Fetches(J, k, ip, ins) && ins.op == TRY
    ensures Goes(J, At(k, ip, regs, w), 1,
              At(k.(tries := k.tries + [TryFrame(ip + 1 + ins.SBx(), ins.a)]), ip + 1, regs, w))
  {
    hide ToI16;
    var k' := k.(tries := k.tries + [TryFrame(ip + 1 + ins.SBx(), ins.a)]);
    FetchStep(J, k, ip, regs, w, ins);
    SetTopMk(k, ip, regs, w, Top(k', ip + 1, regs));
    GoesOne(J, At(k, ip, regs, w), At(k', ip + 1, regs, w));
  }

  lemma ExecEndTry(env: Env, ch: Chunk, vm: VM, f: Frame, ins: Instr)
    requires vm.frames != [] && ins.op == ENDTRY
    ensures Exec(env, ch, vm, f, ins) == Running(SetTop(vm,
      f.(tries := if f.tries == [] then [] else f.tries[..|f.tries| - 1])))
  {
    hide DoPrim, DoCall, WithConst, BadConst, Operands, Taken, Finish, Raise, DoReturn, SetTop, Cells, Vm.Range, AsStr,
      Ascii, Digits, UnknownText, ToI16;
  }

  lemma StepEndTry(J: Job, k: Ctl, t: TryFrame, ip: int, regs: Regs, w: World, ins: Instr)
    requires Fetches(J, k, ip, ins) && ins.op == ENDTRY
    ensures Goes(J, At(k.(tries := k.tries + [t]), ip, regs, w), 1, At(k, ip + 1, regs, w))
  {
    hide Exec, SetTop, Step;
    var k' := k.(tries := k.tries + [t]);
    FetchStep(J, k', ip, regs, w, ins);
    ExecEndTry(J.P.env, J.ch, MkVM(k', ip, regs, w), Top(k', ip + 1, regs), ins);
    assert (k.tries + [t])[..|k.tries|] == k.tries;
    SetTopMk(k', ip, regs, w, Top(k, ip + 1, regs));
    GoesOne(J, At(k', ip, regs, w), At(k, ip + 1, regs, w));
  }

  /** The innermost handler of the running frame takes the error. */
  lemma ThrowCaught(J: Job, k: Ctl, t: TryFrame, regs: Regs, w: World, msg: Text)
    ensures Throwing(J, k.(tries := k.tries + [t]), regs, w, msg) ==
      At(k, t.catchIp, regs[t.errReg := Str(FirstLine(msg))], w)
  {
    var k' := k.(tries := k.tries + [t]);
    assert (k.rest + [Top(k', 0, regs)])[..|k.rest|] == k.rest;
    assert (k.tries + [t])[..|k.tries|] == k.tries;
    hide Finish;
  }

  /** A frame without handlers passes the error to its caller. */
  lemma ThrowPasses(J: Job, k: Ctl, regs: Regs, w: World, msg: Text, kc: Ctl, ip: int, cregs: Regs)
    requires k.tries == [] && k.rest == kc.rest + [Top(kc, ip, cregs)] && k.callers == kc.callers
    ensures Throwing(J, k, regs, w, msg) == Throwing(J, kc, cregs, w, msg)
  {
    assert (k.rest + [Top(k, 0, regs)])[..|k.rest|] == k.rest;
    RaiseTop(J, kc, ip, cregs, w, msg);
    hide Enter;
  }
}
