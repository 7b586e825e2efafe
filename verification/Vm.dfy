/**
 The register machine (internal/vm/vm.go).

 Arithmetic, comparison, containers and natives are an arbitrary environment: a primitive operation is an event
 that the environment answers from the events that went before it, so two runs with equal traces have performed
 the same operations and native calls, with the same operands, in the same order.  A native may call back into
 the machine any number of times before it answers; each callback is one more level of execution.
 */
module Vm {
  import opened Bytecode

  datatype RefKind = FloatRef | BytesRef | ArrayRef | MapRef

  datatype Upvals = NoUpvals | Upvals(id: nat)

  /** Register contents.  Floats, byte strings, arrays and maps are handles that the environment interprets. */
  datatype Value =
    | Null
    | Bool(b: bool)
    | Int(i: int)
    | Str(s: Text)
    | Func(proto: nat, ups: Upvals)
    | Native(id: nat)
    | Pooled(k: Constant)
    | Ref(kind: RefKind, handle: nat)

  datatype Outcome = Ok(v: Value) | Err(msg: Text)

  datatype Event =
    | Prim(op: Byte, operands: seq<Value>)
    | CallNative(id: nat, args: seq<Value>, answers: seq<Outcome>)

  type Trace = seq<Event>

  /** What a native does when entered, or re-entered with the outcome of its last callback. */
  datatype NativeStep = Return(v: Value) | Fail(msg: Text) | CallBack(proto: nat, ups: Upvals, args: seq<Value>)

  datatype Env = Env(
    prim: (Trace, Event) -> Outcome,
    native: (Trace, Event) -> NativeStep,
    truthy: (Trace, Value) -> bool,
    text: (Trace, Value) -> Text,
    quote: Text -> Text,
    modules: map<Text, Value>)

  function Truthy(env: Env, tr: Trace, v: Value): bool {
    match v
    case Null => false
    case Bool(b) => b
    case Int(i) => i != 0
    case Str(s) => s != []
    case Func(_, _) => true
    case Native(_) => true
    case _ => env.truthy(tr, v)
  }

  function AsStr(env: Env, tr: Trace, v: Value): Text {
    if v.Str? then v.s else env.text(tr, v)
  }

  function ConstToValue(k: Constant): Value {
    match k
    case CNull => Null
    case CBool(b) => Bool(b)
    case CInt(i) => Int(i)
    case CStr(s) => Str(s)
    case _ => Pooled(k)
  }

  /** Names of globals and map keys come from constants; a scalar constant's text needs no environment state. */
  function ConstText(env: Env, k: Constant): Text { AsStr(env, [], ConstToValue(k)) }

  function Ascii(s: string): Text { seq(|s|, i requires 0 <= i < |s| => s[i] as int % 0x100) }

  function FirstLine(msg: Text): Text
  {
    if msg == [] || msg[0] == 10 then [] else [msg[0]] + FirstLine(msg[1..])
  }

  type Regs = map<int, Value>

  /** Registers start as null and the file grows on demand, so an absent register reads as null. */
  function Get(regs: Regs, r: int): Value { if r in regs then regs[r] else Null }

  datatype TryFrame = TryFrame(catchIp: int, errReg: nat)

  datatype Frame = Frame(proto: nat, ip: int, regs: Regs, ups: Upvals, retReg: nat, tries: seq<TryFrame>)

  /** The frames suspended below a native that called back, and what is needed to re-enter the native. */
  datatype Caller = Caller(frames: seq<Frame>, id: nat, args: seq<Value>, answers: seq<Outcome>, retReg: nat)

  datatype VM = VM(frames: seq<Frame>, callers: seq<Caller>, globals: map<Text, Value>,
                   cells: seq<seq<Value>>, trace: Trace)

  datatype State =
    | Running(vm: VM)
    | Halted(out: Outcome, globals: map<Text, Value>, trace: Trace)

  function Code(ch: Chunk, ix: nat): seq<Instr> { if ix < |ch.protos| then ch.protos[ix].code else [] }

  function NumParams(ch: Chunk, ix: nat): nat { if ix < |ch.protos| then ch.protos[ix].numParams else 0 }

  function Min(a: nat, b: nat): nat { if a < b then a else b }

  /** newFrame, with the arguments that have a parameter copied into the first registers. */
  function NewFrame(ch: Chunk, proto: nat, ups: Upvals, args: seq<Value>, retReg: nat): Frame {
    Frame(proto, 0, map i | 0 <= i < Min(NumParams(ch, proto), |args|) :: args[i], ups, retReg, [])
  }

  function SetTop(vm: VM, f: Frame): VM
    requires vm.frames != []
  {
    vm.(frames := vm.frames[..|vm.frames| - 1] + [f])
  }

  function Cells(vm: VM, ups: Upvals): seq<Value> {
    if ups.Upvals? && ups.id < |vm.cells| then vm.cells[ups.id] else []
  }

  /** releaseFrame overwrites the upvalue slice, which the closure that made the frame still holds. */
  function Release(cells: seq<seq<Value>>, ups: Upvals): seq<seq<Value>> {
    if ups.Upvals? && ups.id < |cells| then cells[ups.id := seq(|cells[ups.id]|, _ => Null)] else cells
  }

  /** handleTry: the frames from the innermost handler down, resumed at its catch; None when nothing catches. */
  datatype Caught = Uncaught | Caught(frames: seq<Frame>)

  function Unwind(frames: seq<Frame>, msg: Text): Caught
    decreases |frames|
  {
    if frames == [] then Uncaught else
    var rest, f := frames[..|frames| - 1], frames[|frames| - 1];
    if f.tries == [] then Unwind(rest, msg) else
    var t := f.tries[|f.tries| - 1];
    Caught(rest + [f.(regs := f.regs[t.errReg := Str(FirstLine(msg))], ip := t.catchIp, tries :=
      f.tries[..|f.tries| - 1])])
  }

  function Raise(env: Env, ch: Chunk, vm: VM, msg: Text): State {
    match Unwind(vm.frames, msg)
    case Caught(fs) => Running(vm.(frames := fs))
    case Uncaught => Finish(env, ch, vm, Err(msg))
  }

  /** The innermost execute call ends: the program halts, or the native that made the callback is re-entered. */
  function Finish(env: Env, ch: Chunk, vm: VM, out: Outcome): State
    decreases |vm.callers|, 1
  {
    if vm.callers == [] then Halted(if out.Ok? then out else Err(FirstLine(out.msg)), vm.globals, vm.trace) else
    var c := vm.callers[|vm.callers| - 1];
    Enter(env, ch, vm.(frames := c.frames, callers := vm.callers[..|vm.callers| - 1]), c.id, c.args, c.answers + [out],
      c.retReg)
  }

  /** Run a native until it answers, fails or calls back. */
  function Enter(env: Env, ch: Chunk, vm: VM, id: nat, args: seq<Value>, answers: seq<Outcome>, retReg: nat): State
    decreases |vm.callers|, 2
  {
    var e := CallNative(id, args, answers);
    var vm1 := vm.(trace := vm.trace + [e]);
    match env.native(vm.trace, e)
    case Return(v) =>
      if vm.frames == [] then Running(vm1) else
      var f := vm.frames[|vm.frames| - 1];
      Running(SetTop(vm1, f.(regs := f.regs[retReg := v])))
    case Fail(msg) =>
      (match Unwind(vm1.frames, msg)
       case Caught(fs) => Running(vm1.(frames := fs))
       case Uncaught => Finish(env, ch, vm1, Err(msg)))
    case CallBack(proto, ups, cargs) =>
      Running(vm1.(frames := [NewFrame(ch, proto, ups, cargs, 0)],
                   callers := vm.callers + [Caller(vm.frames, id, args, answers, retReg)]))
  }

  function DoReturn(env: Env, ch: Chunk, vm: VM, v: Value): State
    requires vm.frames != []
  {
    var f := vm.frames[|vm.frames| - 1];
    var rest := vm.frames[..|vm.frames| - 1];
    var vm1 := vm.(frames := rest, cells := Release(vm.cells, f.ups));
    if rest == [] then Finish(env, ch, vm1, Ok(v)) else
    var g := rest[|rest| - 1];
    Running(SetTop(vm1, g.(regs := g.regs[f.retReg := v])))
  }

  predicate IsBinary(op: Byte) {
    ADD <= op <= ROR || EQ <= op <= GE || op == GETI || op == CONCAT || BGET8 <= op <= BGET64 || op == IN
  }

  predicate IsUnary(op: Byte) {
    NOT <= op <= LNOT || op == LEN || TOSTR <= op <= ISNULL || op == KEYS
  }

  predicate IsStore(op: Byte) { op == SETI || op == BSET8 || op == ARRPUSH }

  predicate IsList(op: Byte) { op == NEWARR || op == LIST }

  predicate IsPrim(op: Byte) {
    IsBinary(op) || IsUnary(op) || IsStore(op) || IsList(op) || op == NEWMAP || op == BSLICE
  }

  function Range(regs: Regs, base: nat, n: nat): seq<Value> { seq(n, i requires 0 <= i < n => Get(regs, base + i)) }

  /** The operands of the register-only primitive operations. */
  function Operands(regs: Regs, ins: Instr): seq<Value> {
    if IsBinary(ins.op) then [Get(regs, ins.b), Get(regs, ins.c)]
    else if IsUnary(ins.op) then [Get(regs, ins.b)]
    else if IsStore(ins.op) then [Get(regs, ins.a), Get(regs, ins.b), Get(regs, ins.c)]
    else if IsList(ins.op) then Range(regs, ins.b, ins.c)
    else if ins.op == BSLICE then [Get(regs, ins.b), Get(regs, ins.c), Get(regs, ins.c + 1)]
    else []
  }

  /** R[A] receives the answer, or the error is raised. */
  function DoPrim(env: Env, ch: Chunk, vm: VM, f: Frame, op: Byte, operands: seq<Value>, a: Byte): State
    requires vm.frames != []
  {
    var e := Prim(op, operands);
    var vm1 := vm.(trace := vm.trace + [e]);
    match env.prim(vm.trace, e)
    case Ok(v) => Running(SetTop(vm1, f.(regs := f.regs[a := v])))
    case Err(msg) => Raise(env, ch, SetTop(vm1, f), msg)
  }

  function DoCall(env: Env, ch: Chunk, vm: VM, f: Frame, ins: Instr): State
    requires vm.frames != []
  {
    var vm0 := SetTop(vm, f);
    var args := Range(f.regs, ins.b + 1, ins.c);
    match Get(f.regs, ins.b)
    case Native(id) => Enter(env, ch, vm0, id, args, [], ins.a)
    case Func(proto, ups) =>
      if proto < |ch.protos| then Running(vm0.(frames := vm0.frames + [NewFrame(ch, proto, ups, args, ins.a)]))
      else Raise(env, ch, vm0, Ascii("nil func"))
    case v => Raise(env, ch, vm0, Ascii("cannot call ") + TypeName(v))
  }

  function TypeName(v: Value): Text {
    match v
    case Null => Ascii("null")
    case Bool(_) => Ascii("bool")
    case Int(_) => Ascii("int")
    case Str(_) => Ascii("str")
    case Func(_, _) => Ascii("func")
    case Native(_) => Ascii("native")
    case Pooled(k) => Ascii(if k.CFloat? then "float" else "bytes")
    case Ref(k, _) => Ascii(
      match k case FloatRef => "float" case BytesRef => "bytes" case ArrayRef => "array" case MapRef => "map")
  }

  predicate UsesConst(op: Byte) {
    op == LOADK || op == LOADF || op == LOADG || op == STOREG || op == IMPORT || op == GETK || op == SETK
      || op == ASSERT
  }

  /** The pool index an instruction refers to. */
  function ConstIndex(ins: Instr): nat {
    if ins.op == GETK then ins.c else if ins.op == SETK || ins.op == ASSERT then ins.b else ins.Bx()
  }

  function WithConst(env: Env, ch: Chunk, vm: VM, f: Frame, ins: Instr, k: Constant): State
    requires vm.frames != []
  {
    if ins.op == LOADK || ins.op == LOADF then
      Running(SetTop(vm, f.(regs := f.regs[ins.a := ConstToValue(k)])))
    else if ins.op == GETK then
      DoPrim(env, ch, vm, f, GETK, [Get(f.regs, ins.b), Str(ConstText(env, k))], ins.a)
    else if ins.op == SETK then
      DoPrim(env, ch, vm, f, SETK, [Get(f.regs, ins.a), Str(ConstText(env, k)), Get(f.regs, ins.c)], ins.a)
    else if ins.op == LOADG then
      var name := ConstText(env, k);
      Running(SetTop(vm, f.(regs := f.regs[ins.a := if name in vm.globals then vm.globals[name] else Null])))
    else if ins.op == STOREG then
      Running(SetTop(vm, f).(globals := vm.globals[ConstText(env, k) := Get(f.regs, ins.a)]))
    else if ins.op == IMPORT then
      var name := ConstText(env, k);
      if name in env.modules then
        Running(SetTop(vm, f.(regs := f.regs[ins.a := env.modules[name]])).(globals :=
          vm.globals[name := env.modules[name]]))
      else Finish(env, ch, vm, Err(Ascii("unknown module ") + env.quote(name)))
    else
      if Truthy(env, vm.trace, Get(f.regs, ins.a)) then Running(SetTop(vm, f))
      else Finish(env, ch, vm, Err(ConstText(env, k)))
  }

  function Digits(n: nat): Text
    decreases n
  {
    (if n < 10 then [] else Digits(n / 10)) + [48 + n % 10]
  }

  /** The first line of the error for a constant that is not in the pool. */
  function BadConstText(ins: Instr): Text {
    if ins.op == GETK then Ascii("GETK bad const")
    else if ins.op == SETK then Ascii("SETK bad const")
    else if ins.op == LOADG then Ascii("LOADG bad const")
    else if ins.op == STOREG then Ascii("STOREG bad const")
    else if ins.op == IMPORT then Ascii("IMPORT bad const")
    else Ascii("LOADK bad const ") + Digits(ins.Bx())
  }

  /** The opcodes with a name and no meaning are the BAND, FORPREP and FORLOOP of the source. */
  function UnknownText(op: Byte): Text {
    Ascii("unknown opcode ") + Digits(op) +
    Ascii(if op == 58 then " (BAND)" else if op == 62 then " (FORPREP)" else if op == 63 then " (FORLOOP)" else " (?)")
  }

  function BadConst(env: Env, ch: Chunk, vm: VM, f: Frame, ins: Instr): State
    requires vm.frames != []
  {
    if ins.op == ASSERT then
      if Truthy(env, vm.trace, Get(f.regs, ins.a)) then Running(SetTop(vm, f))
      else Finish(env, ch, vm, Err(Ascii("assertion failed")))
    else Finish(env, ch, vm, Err(BadConstText(ins)))
  }

  predicate IsJump(op: Byte) { op == JMP || op == JT || op == JF }

  predicate Taken(env: Env, tr: Trace, regs: Regs, ins: Instr) {
    ins.op == JMP || (ins.op == JT && Truthy(env, tr, Get(regs, ins.a)))
      || (ins.op == JF && !Truthy(env, tr, Get(regs, ins.a)))
  }

  /** Execute `ins` with `f` the running frame, its ip already past `ins`. */
  function Exec(env: Env, ch: Chunk, vm: VM, f: Frame, ins: Instr): State
    requires vm.frames != []
  {
    if IsPrim(ins.op) then DoPrim(env, ch, vm, f, ins.op, Operands(f.regs, ins), ins.a)
    else if IsJump(ins.op) then
      Running(SetTop(vm, if Taken(env, vm.trace, f.regs, ins) then f.(ip := f.ip + ins.SBx()) else f))
    else if UsesConst(ins.op) then
      if ConstIndex(ins) < |ch.consts| then WithConst(env, ch, vm, f, ins, ch.consts[ConstIndex(ins)])
      else BadConst(env, ch, vm, f, ins)
    else if ins.op == CALL then DoCall(env, ch, vm, f, ins)
    else ExecOther(env, ch, vm, f, ins)
  }

  function ExecOther(env: Env, ch: Chunk, vm: VM, f: Frame, ins: Instr): State
    requires vm.frames != []
  {
    if ins.op == HALT then Finish(env, ch, vm, Ok(Null))
    else if ins.op == NOP then Running(SetTop(vm, f))
    else if ins.op == MOVE || ins.op == DUP then Running(SetTop(vm, f.(regs := f.regs[ins.a := Get(f.regs, ins.b)])))
    else if ins.op == LOADI then Running(SetTop(vm, f.(regs := f.regs[ins.a := Int(ins.SBx())])))
    else if ins.op == LOADN then Running(SetTop(vm, f.(regs := f.regs[ins.a := Null])))
    else if ins.op == LOADB then Running(SetTop(vm, f.(regs := f.regs[ins.a := Bool(ins.b != 0)])))
    else if ins.op == RET then DoReturn(env, ch, SetTop(vm, f), Get(f.regs, ins.a))
    else if ins.op == RETN then DoReturn(env, ch, SetTop(vm, f), Null)
    else if ins.op == MAKEFN then
      if ins.Bx() < |ch.protos| then Running(SetTop(vm, f.(regs := f.regs[ins.a := Func(ins.Bx(), NoUpvals)])))
      else Finish(env, ch, vm, Err(Ascii("MAKEFN bad proto ") + Digits(ins.Bx())))
    else if ins.op == CLOSURE then
      if ins.b < |ch.protos| then
        var ups := Range(f.regs, ins.a + 1, ins.c);
        Running(SetTop(vm, f.(regs := f.regs[ins.a := Func(ins.b, Upvals(|vm.cells|))])).(cells := vm.cells + [ups]))
      else Finish(env, ch, vm, Err(Ascii("CLOSURE bad proto")))
    else if ins.op == GETUPV then
      var ups := Cells(vm, f.ups);
      if ins.b < |ups| then Running(SetTop(vm, f.(regs := f.regs[ins.a := ups[ins.b]])))
      else Finish(env, ch, vm, Err(Ascii("GETUPV OOB")))
    else if ins.op == SETUPV then
      var ups := Cells(vm, f.ups);
      if ins.a < |ups| then Running(SetTop(vm, f).(cells := vm.cells[f.ups.id := ups[ins.a := Get(f.regs, ins.b)]]))
      else Finish(env, ch, vm, Err(Ascii("SETUPV OOB")))
    else if ins.op == SWAP then
      Running(SetTop(vm, f.(regs := f.regs[ins.a := Get(f.regs, ins.b)][ins.b := Get(f.regs, ins.a)])))
    else if ins.op == TRY then
      Running(SetTop(vm, f.(tries := f.tries + [TryFrame(f.ip + ins.SBx(), ins.a)])))
    else if ins.op == ENDTRY then
      Running(SetTop(vm, f.(tries := if f.tries == [] then [] else f.tries[..|f.tries| - 1])))
    else if ins.op == THROW then Raise(env, ch, SetTop(vm, f), AsStr(env, vm.trace, Get(f.regs, ins.a)))
    else Finish(env, ch, vm, Err(UnknownText(ins.op)))
  }

  /** One turn of the execute loop. */
  function Step(env: Env, ch: Chunk, s: State): State {
    if s.Halted? then s else
    var vm := s.vm;
    if vm.frames == [] then Finish(env, ch, vm, Ok(Null)) else
    var f := vm.frames[|vm.frames| - 1];
    var code := Code(ch, f.proto);
    if f.proto >= |ch.protos| then Finish(env, ch, vm, Err(Ascii("CallClosure: nil closure"))) else
    if f.ip < 0 || f.ip >= |code| then
      Finish(env, ch, vm.(cells := Release(vm.cells, f.ups)), Ok(Null))
    else
      Exec(env, ch, vm, f.(ip := f.ip + 1), code[f.ip])
  }

  function Run(env: Env, ch: Chunk, s: State, n: nat): State
    decreases n
  {
    if n == 0 then s else Run(env, ch, Step(env, ch, s), n - 1)
  }

  /** Bind the named protos, then start the main proto. */
  function BindNames(protos: seq<Proto>, globals: map<Text, Value>): map<Text, Value>
    decreases |protos|
  {
    if protos == [] then globals else
    var n := |protos| - 1;
    var g := BindNames(protos[..n], globals);
    if protos[n].name == [] || protos[n].name == Ascii("<main>") then g else g[protos[n].name := Func(n, NoUpvals)]
  }

  /** Why a chunk cannot be started. */
  function StartText(ch: Chunk): Text {
    if ch.protos == [] then Ascii("vm: empty chunk")
    else Ascii("vm: bad main index ") + if ch.mainIndex < 0 then Ascii("-") + Digits(-ch.mainIndex)
      else Digits(ch.mainIndex)
  }

  /** VM.Run: `arg` is the argument array that main receives when it takes a parameter. */
  function Start(env: Env, ch: Chunk, arg: Value, globals: map<Text, Value>): State {
    if 0 <= ch.mainIndex < |ch.protos| then
      var f := NewFrame(ch, ch.mainIndex, NoUpvals, [arg], 0);
      Running(VM([f], [], BindNames(ch.protos, globals + env.modules), [], []))
    else Halted(Err(StartText(ch)), globals, [])
  }

  lemma {:induction false} RunAdd(env: Env, ch: Chunk, s: State, m: nat, n: nat)
    ensures Run(env, ch, s, m + n) == Run(env, ch, Run(env, ch, s, m), n)
    decreases m
  {
    if m > 0 {
      RunAdd(env, ch, Step(env, ch, s), m - 1, n);
    }
  }

  lemma {:induction false} HaltedStays(env: Env, ch: Chunk, s: State, n: nat)
    requires s.Halted?
    ensures Run(env, ch, s, n) == s
    decreases n
  {
    if n > 0 {
      HaltedStays(env, ch, s, n - 1);
    }
  }

  /** The run from s has not halted after n steps. */
  predicate Alive(env: Env, ch: Chunk, s: State, n: nat) { Run(env, ch, s, n).Running? }

  lemma AliveMono(env: Env, ch: Chunk, s: State, m: nat, n: nat)
    requires m <= n && Alive(env, ch, s, n)
    ensures Alive(env, ch, s, m)
  {
    RunAdd(env, ch, s, m, n - m);
    if Run(env, ch, s, m).Halted? {
      HaltedStays(env, ch, Run(env, ch, s, m), n - m);
    }
  }

  lemma HaltedLater(env: Env, ch: Chunk, s: State, m: nat, n: nat)
    requires m <= n && Run(env, ch, s, m).Halted?
    ensures Run(env, ch, s, n) == Run(env, ch, s, m)
  {
    RunAdd(env, ch, s, m, n - m);
    HaltedStays(env, ch, Run(env, ch, s, m), n - m);
  }

  /** A run has one end. */
  lemma HaltsOnce(env: Env, ch: Chunk, s: State, m: nat, n: nat)
    requires Run(env, ch, s, m).Halted? && Run(env, ch, s, n).Halted?
    ensures Run(env, ch, s, m) == Run(env, ch, s, n)
  {
    if m <= n {
      HaltedLater(env, ch, s, m, n);
    } else {
      HaltedLater(env, ch, s, n, m);
    }
  }

  /** Some run from s ends in t. */
  ghost predicate EndsIn(env: Env, ch: Chunk, s: State, t: State) {
    t.Halted? && exists n: nat :: Run(env, ch, s, n) == t
  }

  lemma FetchExec(env: Env, ch: Chunk, vm: VM)
    requires vm.frames != []
    requires var f := vm.frames[|vm.frames| - 1]; f.proto < |ch.protos| && 0 <= f.ip < |ch.protos[f.proto].code|
    ensures var f := vm.frames[|vm.frames| - 1];
      Step(env, ch, Running(vm)) == Exec(env, ch, vm, f.(ip := f.ip + 1), ch.protos[f.proto].code[f.ip])
  {
    hide Exec;
  }

  lemma OffStep(env: Env, ch: Chunk, vm: VM)
    requires vm.frames != []
    requires var f := vm.frames[|vm.frames| - 1];
      f.proto < |ch.protos|
      && (f.ip < 0 || f.ip >= |ch.protos[f.proto].code|)
    ensures Step(env, ch, Running(vm)) == Finish(env, ch,
      vm.(cells := Release(vm.cells, vm.frames[|vm.frames| - 1].ups)), Ok(Null))
  {
    hide Finish;
    hide Exec;
    hide Release;
  }

  lemma {:induction false} SameBindings(a: seq<Proto>, b: seq<Proto>, globals: map<Text, Value>)
    requires |a| == |b| && forall i :: 0 <= i < |a| ==> a[i].name == b[i].name
    ensures BindNames(a, globals) == BindNames(b, globals)
    decreases |a|
  {
    if a != [] {
      SameBindings(a[..|a| - 1], b[..|b| - 1], globals);
    }
  }
}
