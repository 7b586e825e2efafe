/**
 The instruction set, instruction by instruction, as the comments and names of internal/bytecode/opcode.go give it: what
 the machine's step function does with each.
 */
module Instructions {
  import opened Bytecode
  import opened Vm
  import opened Language

  /** The opcodes count from 0 in the order of their declarations. */
  lemma Numbered()
    ensures HALT == 0 && MOVE == HALT + 1 && LOADK == MOVE + 1 && LOADI == LOADK + 1 && LOADN == LOADI + 1
      && LOADB == LOADN + 1 && LOADF == LOADB + 1 && ADD == LOADF + 1 && SUB == ADD + 1 && MUL == SUB + 1
      && DIV == MUL + 1 && MOD == DIV + 1 && AND == MOD + 1 && OR == AND + 1 && XOR == OR + 1 && SHL == XOR + 1
      && SHR == SHL + 1 && ROL == SHR + 1 && ROR == ROL + 1 && NOT == ROR + 1 && NEG == NOT + 1 && LNOT == NEG + 1
      && EQ == LNOT + 1 && NE == EQ + 1 && LT == NE + 1 && LE == LT + 1 && GT == LE + 1 && GE == GT + 1
      && JMP == GE + 1 && JT == JMP + 1 && JF == JT + 1 && NEWARR == JF + 1 && NEWMAP == NEWARR + 1
      && GETI == NEWMAP + 1 && SETI == GETI + 1 && GETK == SETI + 1 && SETK == GETK + 1 && LEN == SETK + 1
      && CONCAT == LEN + 1 && BGET8 == CONCAT + 1 && BGET16 == BGET8 + 1 && BGET32 == BGET16 + 1
      && BGET64 == BGET32 + 1 && BSLICE == BGET64 + 1 && BSET8 == BSLICE + 1 && CALL == BSET8 + 1 && RET == CALL + 1
      && RETN == RET + 1 && MAKEFN == RETN + 1 && CLOSURE == MAKEFN + 1 && GETUPV == CLOSURE + 1
      && SETUPV == GETUPV + 1 && NOP == SETUPV + 1 && TOSTR == NOP + 1 && TOINT == TOSTR + 1 && TYPEOF == TOINT + 1
      && ISNULL == TYPEOF + 1 && IN == ISNULL + 1 && BAND == IN + 1 && ARRPUSH == BAND + 1 && KEYS == ARRPUSH + 1
      && ASSERT == KEYS + 1 && FORPREP == ASSERT + 1 && FORLOOP == FORPREP + 1 && LOADG == FORLOOP + 1
      && STOREG == LOADG + 1 && DUP == STOREG + 1 && SWAP == DUP + 1 && IMPORT == SWAP + 1 && LIST == IMPORT + 1
      && TRY == LIST + 1 && ENDTRY == TRY + 1 && THROW == ENDTRY + 1
  {
  }

  /** The wide operand is the upper half of the word, as a number or in two's complement. */
  lemma WideExact(i: Instr)
    ensures i.Word() == i.op + 0x100 * i.a + 0x1_0000 * i.Bx() && i.Bx() == i.Word() / 0x1_0000
    ensures i.SBx() == if i.Word() < 0x8000_0000 then i.Bx() else i.Bx() - 0x1_0000
  {
  }

  lemma MadeExact(op: Byte, a: Byte, bx: U16, sbx: I16)
    ensures MakeABx(op, a, bx).Word() == op + 0x100 * a + 0x1_0000 * bx
    ensures MakeAsBx(op, a, sbx).Word() == op + 0x100 * a + 0x1_0000 * if sbx < 0 then sbx + 0x1_0000 else sbx
  {
    WideExact(MakeABx(op, a, bx));
    WideExact(MakeAsBx(op, a, sbx));
    SBxOf(op, a, sbx);
  }

  // ---- operations on registers ----

  predicate TakesTwo(op: Byte) {
    op == ADD || op == SUB || op == MUL || op == DIV || op == MOD || op == AND || op == OR || op == XOR || op == SHL
    || op == SHR || op == ROL || op == ROR || op == EQ || op == NE || op == LT || op == LE || op == GT || op == GE
    || op == GETI || op == CONCAT || op == BGET8 || op == BGET16 || op == BGET32 || op == BGET64 || op == IN
  }

  predicate TakesOne(op: Byte) {
    op == NOT || op == NEG || op == LNOT || op == LEN || op == TOSTR || op == TOINT || op == TYPEOF || op == ISNULL
    || op == KEYS
  }

  predicate TakesThree(op: Byte) { op == SETI || op == BSET8 || op == ARRPUSH }

  /** The environment is asked the operation on these operands; R[A] receives its answer, or its error is raised. */
  ghost predicate Asks(env: Env, ch: Chunk, vm: VM, f: Frame, ins: Instr, operands: seq<Value>)
    requires vm.frames != []
  {
    var e := Prim(ins.op, operands);
    var vm1 := vm.(trace := vm.trace + [e]);
    var f1 := f.(ip := f.ip + 1);
    match env.prim(vm.trace, e)
    case Ok(v) => Step(env, ch, Running(vm)) == Onward(vm1, f1.(regs := f1.regs[ins.a := v]))
    case Err(msg) =>
      Step(env, ch, Running(vm)) == Raise(env, ch, vm1.(frames := vm.frames[..|vm.frames| - 1] + [f1]), msg)
  }

  lemma PrimAsks(env: Env, ch: Chunk, vm: VM, f: Frame, ins: Instr)
    requires Executes(ch, vm, f, ins) && IsPrim(ins.op)
    ensures Asks(env, ch, vm, f, ins, Operands(f.regs, ins))
  {
    hide Step, Raise, IsPrim, Operands;
    FetchExec(env, ch, vm);
  }

  /** Which registers an operation is asked on. */
  lemma OperandsExact(env: Env, ch: Chunk, vm: VM, f: Frame, ins: Instr)
    requires Executes(ch, vm, f, ins)
    ensures TakesOne(ins.op) ==> Asks(env, ch, vm, f, ins, [Get(f.regs, ins.b)])
    ensures TakesTwo(ins.op) ==> Asks(env, ch, vm, f, ins, [Get(f.regs, ins.b), Get(f.regs, ins.c)])
    ensures TakesThree(ins.op) ==>
      Asks(env, ch, vm, f, ins, [Get(f.regs, ins.a), Get(f.regs, ins.b), Get(f.regs, ins.c)])
    ensures ins.op == BSLICE ==>
      Asks(env, ch, vm, f, ins, [Get(f.regs, ins.b), Get(f.regs, ins.c), Get(f.regs, ins.c + 1)])
    ensures ins.op == NEWMAP ==> Asks(env, ch, vm, f, ins, [])
  {
    hide *;
    OperandsAre(f.regs, ins);
    if IsPrim(ins.op) {
      PrimAsks(env, ch, vm, f, ins);
    }
  }

  lemma OperandsAre(regs: Regs, ins: Instr)
    ensures TakesOne(ins.op) ==> IsPrim(ins.op) && Operands(regs, ins) == [Get(regs, ins.b)]
    ensures TakesTwo(ins.op) ==> IsPrim(ins.op) && Operands(regs, ins) == [Get(regs, ins.b), Get(regs, ins.c)]
    ensures TakesThree(ins.op) ==>
      IsPrim(ins.op) && Operands(regs, ins) == [Get(regs, ins.a), Get(regs, ins.b), Get(regs, ins.c)]
    ensures ins.op == BSLICE ==>
      IsPrim(ins.op) && Operands(regs, ins) == [Get(regs, ins.b), Get(regs, ins.c), Get(regs, ins.c + 1)]
    ensures ins.op == NEWMAP ==> IsPrim(ins.op) && Operands(regs, ins) == []
    ensures (ins.op == NEWARR || ins.op == LIST) ==>
      IsPrim(ins.op) && Operands(regs, ins) == Range(regs, ins.b, ins.c)
  {
    hide Range, Get;
  }

  lemma RangeIs(regs: Regs, base: nat, n: nat, vs: seq<Value>)
    requires |vs| == n && forall i :: 0 <= i < n ==> vs[i] == Get(regs, base + i)
    ensures vs == Range(regs, base, n)
  {
    hide Get;
  }

  /** NEWARR and LIST: C registers from B on. */
  lemma ArrayExact(env: Env, ch: Chunk, vm: VM, f: Frame, ins: Instr, vs: seq<Value>)
    requires Executes(ch, vm, f, ins) && (ins.op == NEWARR || ins.op == LIST)
    requires |vs| == ins.c && forall i :: 0 <= i < |vs| ==> vs[i] == Get(f.regs, ins.b + i)
    ensures Asks(env, ch, vm, f, ins, vs)
  {
    hide *;
    RangeIs(f.regs, ins.b, ins.c, vs);
    OperandsAre(f.regs, ins);
    PrimAsks(env, ch, vm, f, ins);
  }

  // ---- moves ----

  /** The registers afterwards: a holds x, b holds y, and all others hold what they held. */
  ghost predicate Holds(before: Regs, after: Regs, a: int, x: Value, b: int, y: Value) {
    Get(after, a) == x && Get(after, b) == y && forall q :: q != a && q != b ==> Get(after, q) == Get(before, q)
  }

  /** An instruction that is no operation, jump, call or use of a constant. */
  lemma OtherIs(env: Env, ch: Chunk, vm: VM, f: Frame, ins: Instr)
    requires Executes(ch, vm, f, ins)
    requires !IsPrim(ins.op) && !IsJump(ins.op) && !UsesConst(ins.op) && ins.op != CALL
    ensures Step(env, ch, Running(vm)) == ExecOther(env, ch, vm, f.(ip := f.ip + 1), ins)
  {
    hide Step, ExecOther;
    FetchExec(env, ch, vm);
  }

  lemma MoveExact(env: Env, ch: Chunk, vm: VM, f: Frame, ins: Instr) returns (regs: Regs)
    requires Executes(ch, vm, f, ins) && (ins.op == MOVE || ins.op == DUP)
    ensures Step(env, ch, Running(vm)) == Onward(vm, f.(ip := f.ip + 1, regs := regs))
    ensures Holds(f.regs, regs, ins.a, Get(f.regs, ins.b), ins.a, Get(f.regs, ins.b))
  {
    hide Step;
    OtherIs(env, ch, vm, f, ins);
    regs := f.regs[ins.a := Get(f.regs, ins.b)];
  }

  lemma SwapExact(env: Env, ch: Chunk, vm: VM, f: Frame, ins: Instr) returns (regs: Regs)
    requires Executes(ch, vm, f, ins) && ins.op == SWAP
    ensures Step(env, ch, Running(vm)) == Onward(vm, f.(ip := f.ip + 1, regs := regs))
    ensures Holds(f.regs, regs, ins.a, Get(f.regs, ins.b), ins.b, Get(f.regs, ins.a))
  {
    hide Step;
    OtherIs(env, ch, vm, f, ins);
    regs := f.regs[ins.a := Get(f.regs, ins.b)][ins.b := Get(f.regs, ins.a)];
  }

  /** LOADI, LOADN and LOADB carry their value. */
  lemma LoadExact(env: Env, ch: Chunk, vm: VM, f: Frame, ins: Instr) returns (regs: Regs)
    requires Executes(ch, vm, f, ins) && (ins.op == LOADI || ins.op == LOADN || ins.op == LOADB)
    ensures Step(env, ch, Running(vm)) == Onward(vm, f.(ip := f.ip + 1, regs := regs))
    ensures var v := if ins.op == LOADI then Int(ins.SBx()) else if ins.op == LOADN then Null else Bool(ins.b != 0);
      Holds(f.regs, regs, ins.a, v, ins.a, v)
  {
    hide Step, Instr.SBx;
    OtherIs(env, ch, vm, f, ins);
    var v := if ins.op == LOADI then Int(ins.SBx()) else if ins.op == LOADN then Null else Bool(ins.b != 0);
    regs := f.regs[ins.a := v];
  }

  // ---- captured values ----

  /**
   CLOSURE puts a function with cells of its own into R[A]: they hold what R[A+1] to R[A+C] held, and the cells of no
   other closure change.
   */
  lemma ClosureExact(env: Env, ch: Chunk, vm: VM, f: Frame, ins: Instr) returns (vm': VM, ups: Upvals)
    requires Executes(ch, vm, f, ins) && ins.op == CLOSURE && ins.b < |ch.protos|
    ensures Step(env, ch, Running(vm)) == Running(vm') && vm'.frames != []
    ensures Get(vm'.frames[|vm'.frames| - 1].regs, ins.a) == Func(ins.b, ups) && |Cells(vm', ups)| == ins.c
    ensures forall i :: 0 <= i < ins.c ==> Cells(vm', ups)[i] == Get(f.regs, ins.a + 1 + i)
    ensures Cells(vm, ups) == [] && forall u :: u != ups ==> Cells(vm', u) == Cells(vm, u)
  {
    hide Step;
    OtherIs(env, ch, vm, f, ins);
    ups := Upvals(|vm.cells|);
    var vs := Range(f.regs, ins.a + 1, ins.c);
    vm' := vm.(frames := vm.frames[..|vm.frames| - 1] + [f.(ip := f.ip + 1, regs := f.regs[ins.a := Func(ins.b, ups)])],
      cells := vm.cells + [vs]);
  }

  /** A cell is read, or written for every later reader; out of range, the call ends. */
  lemma CellExact(env: Env, ch: Chunk, vm: VM, f: Frame, ins: Instr)
    requires Executes(ch, vm, f, ins) && (ins.op == GETUPV || ins.op == SETUPV)
    ensures var ups, f1 := Cells(vm, f.ups), f.(ip := f.ip + 1);
      && (ins.op == GETUPV && ins.b < |ups| ==>
        Step(env, ch, Running(vm)) == Onward(vm, f1.(regs := f1.regs[ins.a := ups[ins.b]])))
      && (ins.op == SETUPV && ins.a < |ups| ==>
        var t := Step(env, ch, Running(vm));
        && t.Running? && Onward(vm, f1) == Running(t.vm.(cells := vm.cells))
        && Cells(t.vm, f.ups) == ups[ins.a := Get(f.regs, ins.b)]
        && forall u :: u != f.ups ==> Cells(t.vm, u) == Cells(vm, u))
      && (ins.op == GETUPV && ins.b >= |ups| ==>
        Step(env, ch, Running(vm)) == Finish(env, ch, vm, Err(Ascii("GETUPV OOB"))))
      && (ins.op == SETUPV && ins.a >= |ups| ==>
        Step(env, ch, Running(vm)) == Finish(env, ch, vm, Err(Ascii("SETUPV OOB"))))
  {
    hide Step, Finish, Ascii;
    OtherIs(env, ch, vm, f, ins);
  }

  // ---- the rest ----

  /** ASSERT goes on unless its register is false; then the call ends with the constant's text. */
  lemma AssertExact(env: Env, ch: Chunk, vm: VM, f: Frame, ins: Instr)
    requires Executes(ch, vm, f, ins) && ins.op == ASSERT
    ensures Step(env, ch, Running(vm)) ==
      if !IsFalse(env, vm.trace, Get(f.regs, ins.a)) then Onward(vm, f.(ip := f.ip + 1))
      else Finish(env, ch, vm, Err(
        if ins.b < |ch.consts| then ConstText(env, ch.consts[ins.b]) else Ascii("assertion failed")))
  {
    hide Truthy, IsFalse, Step, Finish, Ascii, ConstText;
    TruthExact(env, vm.trace, Get(f.regs, ins.a));
    FetchExec(env, ch, vm);
  }

  /** IMPORT puts a module into R[A] and under its name into the globals; an unknown one ends the call. */
  lemma ImportExact(env: Env, ch: Chunk, vm: VM, f: Frame, ins: Instr)
    requires Executes(ch, vm, f, ins) && ins.op == IMPORT && ins.Bx() < |ch.consts|
    ensures var name := ConstText(env, ch.consts[ins.Bx()]);
      if name in env.modules then
        Step(env, ch, Running(vm)) == Onward(vm.(globals := vm.globals[name := env.modules[name]]),
          f.(ip := f.ip + 1, regs := f.regs[ins.a := env.modules[name]]))
      else Step(env, ch, Running(vm)) == Finish(env, ch, vm, Err(Ascii("unknown module ") + env.quote(name)))
  {
    hide Step, Finish, Ascii, ConstText, Instr.Bx;
    FetchExec(env, ch, vm);
  }

  /** HALT ends the call with null; an opcode without a meaning ends it with an error. */
  lemma EndExact(env: Env, ch: Chunk, vm: VM, f: Frame, ins: Instr)
    requires Executes(ch, vm, f, ins)
      && (ins.op == HALT || ins.op > THROW || ins.op == BAND || ins.op == FORPREP || ins.op == FORLOOP)
    ensures Step(env, ch, Running(vm)) ==
      Finish(env, ch, vm, if ins.op == HALT then Ok(Null) else Err(UnknownText(ins.op)))
  {
    hide Step, Finish, UnknownText;
    OtherIs(env, ch, vm, f, ins);
  }
}
