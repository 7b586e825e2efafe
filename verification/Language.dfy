/**
 What the language promises, in its own words: which values count as true, for the machine's jumps and for the
 statements and operators that decide by them, and what is seen of an error.
 */
module Language {
  import opened Bytecode
  import opened Ast
  import opened Vm
  import opened Semantics

  /** null, false, 0, the empty string, and what the environment calls false: an empty container, a float that is 0. */
  predicate IsFalse(env: Env, tr: Trace, v: Value) {
    v == Null || v == Bool(false) || v == Int(0) || v == Str([]) || ((v.Pooled? || v.Ref?) && !env.truthy(tr, v))
  }

  lemma TruthExact(env: Env, tr: Trace, v: Value)
    ensures Truthy(env, tr, v) <==> !IsFalse(env, tr, v)
  {
  }

  // ---- the machine ----

  /** The running frame is f, about to execute ins. */
  predicate Executes(ch: Chunk, vm: VM, f: Frame, ins: Instr) {
    && vm.frames != [] && f == vm.frames[|vm.frames| - 1] && f.proto < |ch.protos|
    && 0 <= f.ip < |ch.protos[f.proto].code| && ch.protos[f.proto].code[f.ip] == ins
  }

  /** Nothing but the running frame changes, which becomes g. */
  function Onward(vm: VM, g: Frame): State
    requires vm.frames != []
  {
    Running(vm.(frames := vm.frames[..|vm.frames| - 1] + [g]))
  }

  /** JMP always goes by its offset; JF exactly when its register is false, JT exactly when it is not. */
  lemma JumpExact(env: Env, ch: Chunk, vm: VM, f: Frame, ins: Instr)
    requires Executes(ch, vm, f, ins) && (ins.op == JMP || ins.op == JT || ins.op == JF)
    ensures var no := IsFalse(env, vm.trace, Get(f.regs, ins.a));
      var leaps := ins.op == JMP || (ins.op == JF && no) || (ins.op == JT && !no);
      Step(env, ch, Running(vm)) == Onward(vm, f.(ip := f.ip + 1 + if leaps then ins.SBx() else 0))
  {
    hide Truthy, IsFalse, Step, Instr.SBx;
    TruthExact(env, vm.trace, Get(f.regs, ins.a));
    FetchExec(env, ch, vm);
  }

  // ---- statements and operators ----

  lemma IfExact(P: Prog, E: Scope, s: Stmt, w: World, fuel: nat)
    requires s.If? && Eval(P, E, s.cond, w, fuel).Val?
    ensures var r := Eval(P, E, s.cond, w, fuel);
      ExecStmt(P, E, s, w, fuel) ==
      if !IsFalse(P.env, r.w.trace, r.v) then ExecBlock(P, E, s.thn, r.w, fuel)
      else if s.els.Some? && (s.els.value.Block? || s.els.value.If?) then ExecStmt(P, E, s.els.value, r.w, fuel)
      else Done(Next, E, r.w)
  {
    hide Truthy, IsFalse, Eval, ExecBlock;
    var r := Eval(P, E, s.cond, w, fuel);
    TruthExact(P.env, r.w.trace, r.v);
  }

  /** A loop is done when its condition is false; else its body runs, and on its way decides what comes next. */
  lemma WhileExact(P: Prog, E: Scope, s: Stmt, w: World, fuel: nat)
    requires s.While? && Eval(P, E, s.cond, w, fuel).Val?
    ensures var r := Eval(P, E, s.cond, w, fuel);
      var b := ExecBlock(P, E, s.body, r.w, fuel);
      ExecStmt(P, E, s, w, fuel) ==
      if IsFalse(P.env, r.w.trace, r.v) then Done(Next, E, r.w)
      else if b.Stuck? || b.sig.Ret? || b.sig.Thrown? then b
      else if b.sig.Brk? then Done(Next, b.env, b.w)
      else if fuel == 0 then Stuck(b.w) else ExecStmt(P, b.env, s, b.w, fuel - 1)
  {
    hide Truthy, IsFalse, Eval, ExecBlock;
    var r := Eval(P, E, s.cond, w, fuel);
    TruthExact(P.env, r.w.trace, r.v);
    WhileIs(P, E, s, w, fuel);
    if fuel > 0 {
      var b := ExecBlock(P, E, s.body, r.w, fuel);
      if b.Done? {
        WhileIs(P, b.env, s, b.w, fuel - 1);
      }
    }
  }

  lemma WhileIs(P: Prog, E: Scope, s: Stmt, w: World, fuel: nat)
    requires s.While?
    ensures ExecStmt(P, E, s, w, fuel) == ExecWhile(P, E, s, w, fuel)
  {
    hide ExecWhile;
  }

  lemma TernaryExact(P: Prog, E: Scope, e: Expr, w: World, fuel: nat)
    requires e.Ternary? && Eval(P, E, e.cond, w, fuel).Val?
    ensures var r := Eval(P, E, e.cond, w, fuel);
      Eval(P, E, e, w, fuel) == Eval(P, E, if IsFalse(P.env, r.w.trace, r.v) then e.els else e.thn, r.w, fuel)
  {
    hide Truthy, IsFalse;
    var r := Eval(P, E, e.cond, w, fuel);
    TruthExact(P.env, r.w.trace, r.v);
  }

  /** `&&` stops at a false left side, `||` at a true one, each with the value of that side. */
  lemma LogicExact(P: Prog, E: Scope, e: Expr, w: World, fuel: nat)
    requires e.Binary? && (e.op == AndAnd || e.op == OrOr) && Eval(P, E, e.left, w, fuel).Val?
    ensures var r := Eval(P, E, e.left, w, fuel);
      Eval(P, E, e, w, fuel) ==
      if IsFalse(P.env, r.w.trace, r.v) == (e.op == AndAnd) then r else Eval(P, E, e.right, r.w, fuel)
  {
    hide Truthy, IsFalse;
    var r := Eval(P, E, e.left, w, fuel);
    TruthExact(P.env, r.w.trace, r.v);
  }

  /** A case is taken exactly when the answer for its values is not false. */
  lemma CaseExact(P: Prog, E: Scope, s: Stmt, i: nat, tag: Value, w: World, fuel: nat)
    requires s.Switch? && i < |s.cases| && EvalMatch(P, E, s.cases[i].values, tag, Bool(false), w, fuel).Val?
    ensures var r := EvalMatch(P, E, s.cases[i].values, tag, Bool(false), w, fuel);
      ExecCases(P, E, s, i, tag, w, fuel) ==
      if IsFalse(P.env, r.w.trace, r.v) then ExecCases(P, E, s, i + 1, tag, r.w, fuel)
      else ExecBlock(P, E, s.cases[i].body, r.w, fuel)
  {
    hide Truthy, IsFalse, EvalMatch, ExecBlock;
    var r := EvalMatch(P, E, s.cases[i].values, tag, Bool(false), w, fuel);
    TruthExact(P.env, r.w.trace, r.v);
  }

  // ---- names ----

  /** A function name means the last function of that name; none if there is none. */
  lemma {:induction false} FunctionExact(funcs: seq<FuncDecl>, name: Text, ix: nat)
    requires ix < |funcs|
    ensures FuncIndex(funcs, name) == ix <==>
      funcs[ix].name == name && forall j :: ix < j < |funcs| ==> funcs[j].name != name
    ensures FuncIndex(funcs, name) == |funcs| <==> forall j :: 0 <= j < |funcs| ==> funcs[j].name != name
    decreases |funcs|
  {
    var n := |funcs| - 1;
    if funcs[n].name != name && n > 0 {
      FunctionExact(funcs[..n], name, if ix < n then ix else 0);
      assert forall j :: 0 <= j < n ==> funcs[..n][j] == funcs[j];
    }
  }

  lemma KindNames()
    ensures TypeName(Null) == Ascii("null") && forall b :: TypeName(Bool(b)) == Ascii("bool")
    ensures forall i :: TypeName(Int(i)) == Ascii("int")
    ensures forall s :: TypeName(Str(s)) == Ascii("str")
    ensures forall p, u :: TypeName(Func(p, u)) == Ascii("func")
    ensures forall n :: TypeName(Native(n)) == Ascii("native")
    ensures forall x :: TypeName(Pooled(CFloat(x))) == Ascii("float")
    ensures forall bs :: TypeName(Pooled(CBytes(bs))) == Ascii("bytes")
    ensures forall h :: TypeName(Ref(FloatRef, h)) == Ascii("float") && TypeName(Ref(BytesRef, h)) == Ascii("bytes")
    ensures forall h :: TypeName(Ref(ArrayRef, h)) == Ascii("array") && TypeName(Ref(MapRef, h)) == Ascii("map")
  {
  }

  // ---- errors ----

  /** The first line of a text: nothing of it is a line end, and either it is all or a line end follows. */
  lemma {:induction false} FirstLineExact(msg: Text, line: Text)
    ensures line == FirstLine(msg) <==>
      line <= msg && 10 !in line && (|line| == |msg| || msg[|line|] == 10)
    decreases |msg|
  {
    if msg != [] && msg[0] != 10 {
      FirstLineExact(msg[1..], if line == [] then [] else line[1..]);
      if line != [] {
        assert line == [line[0]] + line[1..] && msg == [msg[0]] + msg[1..];
        assert line <= msg <==> line[0] == msg[0] && line[1..] <= msg[1..];
      }
    }
  }

  /** `try { throw e } catch x { .. }`: the handler finds the first line of a thrown string under x. */
  lemma CatchExact(P: Prog, E: Scope, e: Expr, x: Text, handler: seq<Stmt>, w: World, fuel: nat)
    requires Eval(P, E, e, w, fuel).Val? && Eval(P, E, e, w, fuel).v.Str?
    ensures var r := Eval(P, E, e, w, fuel);
      var h := ExecBlock(P, E + [Binding(x, Str(FirstLine(r.v.s)))], handler, r.w, fuel);
      ExecStmt(P, E, Try([Throw(e)], x, handler), w, fuel) ==
      if h.Done? then Done(h.sig, Trunc(h.env, |E|), h.w) else h
  {
    hide FirstLine;
    var r := Eval(P, E, e, w, fuel);
    assert ExecStmt(P, E, Throw(e), w, fuel) == Done(Thrown(r.v.s), E, r.w);
    assert ExecStmts(P, E, [Throw(e)], w, fuel) == Done(Thrown(r.v.s), E, r.w);
    assert ExecBlock(P, E, [Throw(e)], w, fuel) == Done(Thrown(r.v.s), Trunc(E, |E|), r.w);
    assert Trunc(E, |E|) == E;
  }
}
