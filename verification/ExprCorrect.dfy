/** The code of an expression computes the value the semantics gives it. */
module ExprCorrect {
  import opened Bytecode
  import opened Ast
  import opened Vm
  import opened Semantics
  import opened MachineSteps
  import opened Compiler
  import opened CompilerShape
  import opened ExprBase

  /** A called function: from a fresh frame, the machine returns what CallFunc gives. */
  ghost predicate CallEnds(J: Job, k: Ctl, ix: nat, args: seq<Value>, w: World, fuel: nat)
    requires ix < |J.P.funcs|
  {
    var s := At(k, 0, NewFrame(J.ch, ix, NoUpvals, args, 0).regs, w);
    match CallFunc(J.P, ix, args, w, fuel)
    case Val(v, w') => exists n: nat :: n >= 1 && Goes(J, s, n, Returned(J, k, w', v))
    case Fails(msg, w') => exists n: nat, regs' :: n >= 1 && Goes(J, s, n, Throwing(J, k, regs', w', msg))
    case Timeout(w') => Lives(J, s, fuel, w')
  }

  /** Every call that has less than this fuel ends as the semantics says. */
  ghost predicate CallsOk(J: Job, fuel: nat) {
    forall k: Ctl, ix: nat, args, w, f: nat ::
      f < fuel && ix < |J.P.funcs| && k.proto == ix && k.tries == [] ==> CallEnds(J, k, ix, args, w, f)
  }

  lemma FindStays(pool: seq<Constant>, consts: seq<Constant>, k: Constant)
    requires pool <= consts && Find(pool, k) < |pool|
    ensures Find(consts, k) == Find(pool, k)
  {
  }

  lemma InternFacts(st: CS, k: Constant, consts: seq<Constant>)
    requires Intern(st, k).0.pool <= consts
    ensures Intern(st, k).1 < |consts| && consts[Intern(st, k).1] == k && Find(consts, k) == Intern(st, k).1
    ensures Intern(st, k).0 == st.(pool := Intern(st, k).0.pool)
  {
    var ix := Find(st.pool, k);
    if ix < |st.pool| {
      FindStays(st.pool, consts, k);
    } else {
      assert consts[|st.pool|] == k;
      assert forall i :: 0 <= i < |st.pool| ==> consts[i] == st.pool[i];
    }
  }

  lemma LoadConstCorrect(J: Job, k: Ctl, st: CS, c: Constant, dest: Byte, E: Scope, regs: Regs, w: World,
    live: set<int>, fuel: nat)
    returns (n: nat, regs': Regs)
    requires Base(J, k, st, LoadConst(st, c, dest), E, regs, live, {})
    ensures Ends(J, At(k, |st.code|, regs, w), k, |LoadConst(st, c, dest).code|, dest, live - {dest}, regs,
                 Val(ConstToValue(c), w), fuel, true, n, regs')
  {
    hide *;
    var (st1, ki) := Intern(st, c);
    var ins := MakeABx(LOADK, dest, ki % 0x1_0000);
    var st' := LoadConst(st, c, dest);
    BaseHosted(J, k, st, st', E, regs, live, {});
    LoadConstIs(st, c, dest);
    ConstCode(st, c, LOADK, dest, st', J, k);
    FetchAt(J, k, st, st', |st.code|, ins);
    StepLoadK(J, k, |st.code|, regs, w, ins);
    n := 1;
    regs' := EndsOne(J, k, |st.code|, regs, w, dest, live, Val(ConstToValue(c), w), fuel);
  }

  lemma LoadConstIs(st: CS, c: Constant, dest: Byte)
    ensures LoadConst(st, c, dest) == Emit(Intern(st, c).0, MakeABx(LOADK, dest, Intern(st, c).1 % 0x1_0000))
  {
    hide Intern;
  }

  /** An instruction that names a constant: the operand is its place in the final pool. */
  lemma ConstCode(st: CS, c: Constant, op: Byte, a: Byte, st': CS, J: Job, k: Ctl)
    requires st' == Emit(Intern(st, c).0, MakeABx(op, a, Intern(st, c).1 % 0x1_0000))
    requires Hosted(J, k, st, st') && JobOk(J)
    ensures var (st1, ki) := Intern(st, c);
      && st'.code == st.code + [MakeABx(op, a, ki % 0x1_0000)] && |st'.code| == |st.code| + 1
      && MakeABx(op, a, ki % 0x1_0000).Bx() == ki < |J.ch.consts| && J.ch.consts[ki] == c
  {
    InternFacts(st, c, J.ch.consts);
    hide Intern;
  }

  lemma LoadCorrect(J: Job, k: Ctl, st: CS, ins: Instr, E: Scope, regs: Regs, w: World, live: set<int>, fuel: nat)
    returns (n: nat, regs': Regs)
    requires Base(J, k, st, Emit(st, ins), E, regs, live, {})
    requires ins.op == LOADI || ins.op == LOADB || ins.op == LOADN || ins.op == MOVE
      || (ins.op == MAKEFN && ins.Bx() < |J.ch.protos|)
    ensures Ends(J, At(k, |st.code|, regs, w), k, |st.code| + 1, ins.a, live - {ins.a}, regs, Val(Loaded(regs, ins), w),
      fuel, true, n, regs')
  {
    FetchAt(J, k, st, Emit(st, ins), |st.code|, ins);
    StepLoad(J, k, |st.code|, regs, w, ins);
    hide Goes;
    n := 1;
    regs' := EndsOne(J, k, |st.code|, regs, w, ins.a, live, Val(Loaded(regs, ins), w), fuel);
  }

  lemma LiteralCorrect(J: Job, k: Ctl, st: CS, lit: Literal, dest: Byte, E: Scope, regs: Regs, w: World, live: set<int>,
    fuel: nat)
    returns (n: nat, regs': Regs)
    requires Base(J, k, st, CompileLiteral(st, lit, dest), E, regs, live, {})
    ensures Ends(J, At(k, |st.code|, regs, w), k, |CompileLiteral(st, lit, dest).code|, dest, live - {dest}, regs,
                 Val(LitValue(lit), w), fuel, true, n, regs')
  {
    hide Base;
    hide Ends;
    hide LoadConst;
    match lit
    case LNull => n, regs' := LoadCorrect(J, k, st, MakeABC(LOADN, dest, 0, 0), E, regs, w, live, fuel);
    case LBool(b) => n, regs' := LoadCorrect(J, k, st, MakeABC(LOADB, dest, if b then 1 else 0, 0), E, regs, w, live,
      fuel);
    case LInt(i) =>
      if -0x8000 <= i < 0x8000 {
        n, regs' := LoadCorrect(J, k, st, MakeAsBx(LOADI, dest, i), E, regs, w, live, fuel);
      } else {
        n, regs' := LoadConstCorrect(J, k, st, CInt(i), dest, E, regs, w, live, fuel);
      }
    case LFloat(bits) => n, regs' := LoadConstCorrect(J, k, st, CFloat(bits), dest, E, regs, w, live, fuel);
    case LStr(s) => n, regs' := LoadConstCorrect(J, k, st, CStr(s), dest, E, regs, w, live, fuel);
  }

  lemma BaseNames(J: Job, k: Ctl, st: CS, st': CS, E: Scope, regs: Regs, live: set<int>, names: set<Text>,
    names1: set<Text>)
    requires Base(J, k, st, st', E, regs, live, names) && names1 <= names
    ensures Base(J, k, st, st', E, regs, live, names1)
  {
  }

  lemma IdentCorrect(J: Job, k: Ctl, st: CS, name: Text, dest: Byte, E: Scope, regs: Regs, w: World, live: set<int>,
    fuel: nat)
    returns (n: nat, regs': Regs)
    requires Base(J, k, st, CompileIdent(J.P.funcs, st, name, dest), E, regs, live, {name}) && dest in live
    ensures Ends(J, At(k, |st.code|, regs, w), k, |CompileIdent(J.P.funcs, st, name, dest).code|, dest, live - {dest},
      regs, Val(NameValue(J.P, E, name, w), w), fuel, true, n, regs')
  {
    hide *;
    var st' := CompileIdent(J.P.funcs, st, name, dest);
    if name in st.locals {
      n, regs' := LocalCorrect(J, k, st, name, dest, E, regs, w, live, fuel);
    } else {
      NotLocal(J, k, st, st', E, regs, live, name);
      BaseNames(J, k, st, st', E, regs, live, {name}, {});
      FuncFits(J, k, st, st', E, regs, live, {});
      NotLocalIs(J.P, E, st, name, dest, w);
      if FuncIndex(J.P.funcs, name) < |J.P.funcs| {
        n, regs' := LoadCorrect(J, k, st, MakeABx(MAKEFN, dest, FuncIndex(J.P.funcs, name) % 0x1_0000), E, regs, w,
          live, fuel);
      } else {
        n, regs' := GlobalCorrect(J, k, st, name, dest, E, regs, w, live, fuel);
      }
    }
  }

  lemma NotLocalIs(P: Prog, E: Scope, st: CS, name: Text, dest: Byte, w: World)
    requires name !in st.locals && Position(E, name) < 0 && |P.funcs| <= 0x1_0000
    ensures FuncIndex(P.funcs, name) < |P.funcs| ==>
      var ins := MakeABx(MAKEFN, dest, FuncIndex(P.funcs, name) % 0x1_0000);
      && CompileIdent(P.funcs, st, name, dest) == Emit(st, ins) && |Emit(st, ins).code| == |st.code| + 1
        && ins.a == dest && ins.op == MAKEFN
      && ins.Bx() == FuncIndex(P.funcs, name) && forall regs :: Loaded(regs, ins) == NameValue(P, E, name, w)
    ensures FuncIndex(P.funcs, name) == |P.funcs| ==>
      NameValue(P, E, name, w) == if name in w.globals then w.globals[name] else Null
  {
    hide MakeABx;
    hide Intern;
    hide ToI16;
  }

  lemma NotLocal(J: Job, k: Ctl, st: CS, st': CS, E: Scope, regs: Regs, live: set<int>, name: Text)
    requires Base(J, k, st, st', E, regs, live, {name}) && name !in st.locals
    ensures Position(E, name) < 0
  {
    assert name in {name};
  }

  lemma FuncFits(J: Job, k: Ctl, st: CS, st': CS, E: Scope, regs: Regs, live: set<int>, names: set<Text>)
    requires Base(J, k, st, st', E, regs, live, names)
    ensures |J.P.funcs| == |J.ch.protos| <= 0x1_0000
  {
  }

  lemma LocalCorrect(J: Job, k: Ctl, st: CS, name: Text, dest: Byte, E: Scope, regs: Regs, w: World, live: set<int>,
    fuel: nat)
    returns (n: nat, regs': Regs)
    requires name in st.locals
    requires Base(J, k, st, CompileIdent(J.P.funcs, st, name, dest), E, regs, live, {name}) && dest in live
    ensures Ends(J, At(k, |st.code|, regs, w), k, |CompileIdent(J.P.funcs, st, name, dest).code|, dest, live - {dest},
      regs, Val(NameValue(J.P, E, name, w), w), fuel, true, n, regs')
  {
    assert name in {name};
    if st.locals[name] != dest {
      BaseNames(J, k, st, CompileIdent(J.P.funcs, st, name, dest), E, regs, live, {name}, {});
      hide Goes;
      n, regs' := LoadCorrect(J, k, st, MakeABC(MOVE, dest, st.locals[name], 0), E, regs, w, live, fuel);
    } else {
      n, regs' := 0, regs;
      GoesZero(J, At(k, |st.code|, regs, w));
    }
  }

  lemma GlobalCorrect(J: Job, k: Ctl, st: CS, name: Text, dest: Byte, E: Scope, regs: Regs, w: World, live: set<int>,
    fuel: nat)
    returns (n: nat, regs': Regs)
    requires name !in st.locals && FuncIndex(J.P.funcs, name) == |J.P.funcs|
    requires Base(J, k, st, CompileIdent(J.P.funcs, st, name, dest), E, regs, live, {})
    ensures Ends(J, At(k, |st.code|, regs, w), k, |CompileIdent(J.P.funcs, st, name, dest).code|, dest, live - {dest},
      regs, Val(if name in w.globals then w.globals[name] else Null, w), fuel, true, n, regs')
  {
    hide *;
    var (st1, ki) := Intern(st, CStr(name));
    var ins := MakeABx(LOADG, dest, ki % 0x1_0000);
    var st' := CompileIdent(J.P.funcs, st, name, dest);
    var v := if name in w.globals then w.globals[name] else Null;
    BaseHosted(J, k, st, st', E, regs, live, {});
    GlobalIs(J.P.funcs, st, name, dest);
    ConstCode(st, CStr(name), LOADG, dest, st', J, k);
    FetchAt(J, k, st, st', |st.code|, ins);
    StepLoadG(J, k, |st.code|, regs, w, ins, name);
    n := 1;
    regs' := EndsOne(J, k, |st.code|, regs, w, dest, live, Val(v, w), fuel);
  }

  lemma GlobalIs(funcs: seq<FuncDecl>, st: CS, name: Text, dest: Byte)
    requires name !in st.locals && FuncIndex(funcs, name) == |funcs|
    ensures CompileIdent(funcs, st, name, dest) ==
      Emit(Intern(st, CStr(name)).0, MakeABx(LOADG, dest, Intern(st, CStr(name)).1 % 0x1_0000))
  {
    hide Intern;
  }

  /** A register that no local uses. */
  ghost predicate NoLocal(st: CS, r: int) { forall x :: x in st.locals ==> st.locals[x] != r }

  /** Allocating a temporary: it is fresh, so neither live nor a local's. */
  lemma AllocBase(J: Job, k: Ctl, st: CS, st': CS, E: Scope, regs: Regs, live: set<int>, names: set<Text>)
    requires Base(J, k, st, st', E, regs, live, names) && Grows(Alloc(st).0, st')
    ensures var (st1, tmp) := Alloc(st);
      Base(J, k, st1, st', E, regs, live + {tmp}, names) && tmp !in live && NoLocal(st1, tmp) && st1.code == st.code
      && st1.locals == st.locals && (live + {tmp}) - {tmp as int} == live
  {
    ShapeAlloc(st);
    hide Alloc;
    var (st1, tmp) := Alloc(st);
    assert (live + {tmp}) - {tmp as int} == live;
    WithinGrows(st1, st', st');
    BaseSub(J, k, st, st', E, regs, live, names, st1, st', regs, live + {tmp}, names);
  }

  lemma {:induction false} FreshDestOk(locals: map<Text, Byte>, e: Expr, dest: int)
    requires forall x :: x in locals ==> locals[x] != dest
    ensures DestOk(locals, e, dest)
    decreases e
  {
    match e
    case Binary(_, l, r) =>
      FreshDestOk(locals, l, dest);
      FreshDestOk(locals, r, dest);
    case Ternary(_, t, f) =>
      FreshDestOk(locals, t, dest);
      FreshDestOk(locals, f, dest);
    case _ =>
  }

  /** A primitive operation over registers ends the expression. */
  lemma PrimEnds(J: Job, k: Ctl, st: CS, st': CS, ip: int, ins: Instr, operands: seq<Value>, regs: Regs, w: World,
    live: set<int>, fuel: nat)
    returns (regs': Regs)
    requires Hosted(J, k, st, st') && |st.code| <= ip < |st'.code| && st'.code[ip] == ins
    requires IsPrim(ins.op) && Operands(regs, ins) == operands
    ensures Ends(J, At(k, ip, regs, w), k, ip + 1, ins.a, live - {ins.a}, regs, Ask(J.P, ins.op, operands, w), fuel,
      true, 1, regs')
    ensures Ask(J.P, ins.op, operands, w).Val? ==> regs' == regs[ins.a := Ask(J.P, ins.op, operands, w).v]
  {
    FetchAt(J, k, st, st', ip, ins);
    StepPrim(J, k, ip, regs, w, ins);
    hide Goes;
    hide Ask;
    regs' := EndsOne(J, k, ip, regs, w, ins.a, live, Ask(J.P, ins.op, operands, w), fuel);
  }

  /** An operand into a register that is live but no local's: the rest of the code runs in the same setting. */
  lemma {:induction false} Into(J: Job, k: Ctl, st: CS, st': CS, E: Scope, regs: Regs, w: World, live: set<int>,
    names: set<Text>, tmp: Byte, x: Expr, fuel: nat)
    returns (n: nat, regs1: Regs)
    requires Base(J, k, st, st', E, regs, live, names) && Mentions(x) <= names && CallsOk(J, fuel)
    requires tmp in live && NoLocal(st, tmp) && Grows(CompileExpr(J.P.funcs, st, x, tmp), st')
    ensures var st2 := CompileExpr(J.P.funcs, st, x, tmp);
      var r := Eval(J.P, E, x, w, fuel);
      && Ends(J, At(k, |st.code|, regs, w), k, |st2.code|, tmp, live - {tmp}, regs, r, fuel, Atomic(x), n, regs1)
      && Shape(st, st2) && st2.locals == st.locals
      && (r.Val? ==> Base(J, k, st2, st', E, regs1, live, names))
    decreases x, 3
  {
    var st2 := CompileExpr(J.P.funcs, st, x, tmp);
    ShapeExpr(J.P.funcs, st, x, tmp);
    hide CompileExpr;
    hide Eval;
    FreshDestOk(st.locals, x, tmp);
    IntoBase(J, k, st, st', E, regs, live, names, st2, Mentions(x));
    n, regs1 := ExpressionCorrect(J, k, st, x, tmp, E, regs, w, live, fuel);
    if Eval(J.P, E, x, w, fuel).Val? {
      AfterInto(J, k, st, st', E, regs, live, names, tmp, st2, regs1);
    }
  }

  lemma IntoBase(J: Job, k: Ctl, st: CS, st': CS, E: Scope, regs: Regs, live: set<int>, names: set<Text>, st2: CS,
    names1: set<Text>)
    requires Base(J, k, st, st', E, regs, live, names) && Shape(st, st2) && Grows(st2, st') && names1 <= names
    ensures Base(J, k, st, st2, E, regs, live, names1)
  {
    WithinGrows(st, st2, st');
    BaseSub(J, k, st, st', E, regs, live, names, st, st2, regs, live, names1);
  }

  lemma AfterInto(J: Job, k: Ctl, st: CS, st': CS, E: Scope, regs: Regs, live: set<int>, names: set<Text>, tmp: Byte,
    st2: CS, regs1: Regs)
    requires Base(J, k, st, st', E, regs, live, names) && Shape(st, st2) && Grows(st2, st')
    requires tmp in live && NoLocal(st, tmp) && Same(live - {tmp as int}, regs, regs1)
    ensures Base(J, k, st2, st', E, regs1, live, names)
  {
    hide Inv;
    hide Held;
    assert Sees(st.locals, E, regs1, live, names);
  }

  /** Every operand has its value; the last instruction is a primitive operation over registers. */
  lemma PrimLast(J: Job, k: Ctl, st: CS, st': CS, s: State, n1: nat, ip: int, ins: Instr, operands: seq<Value>,
    regs: Regs, regs1: Regs, w1: World, live: set<int>, fuel: nat)
    returns (n: nat, regs': Regs)
    requires Hosted(J, k, st, st') && |st.code| <= ip < |st'.code| && st'.code[ip] == ins
    requires IsPrim(ins.op) && Operands(regs1, ins) == operands && ins.a in live
    requires Reached(J, s, n1, k, ip, live, regs, regs1, w1)
    ensures Ends(J, s, k, ip + 1, ins.a, live - {ins.a}, regs, Ask(J.P, ins.op, operands, w1), fuel, true, n, regs')
  {
    hide *;
    var regs2 := PrimEnds(J, k, st, st', ip, ins, operands, regs1, w1, live, fuel);
    n, regs' := n1 + 1, regs2;
    ReachEnd(J, s, n1, k, ip, live, regs, regs1, w1, ip + 1, ins.a, live - {ins.a}, Ask(J.P, ins.op, operands, w1),
      fuel, true, 1, regs2);
  }

  lemma NoLocalSame(a: CS, b: CS, r: int)
    requires NoLocal(a, r) && a.locals == b.locals
    ensures NoLocal(b, r)
  {
  }

  // ---- operators ----

  /** The compiler's table of operators is the one of the language. */
  lemma UnaryMeant(op: UnOp)
    ensures UnOpcode(op) == UnOperation(op)
  {
  }

  lemma BinaryMeant(op: BinOp)
    requires op != AndAnd && op != OrOr
    ensures BinOpcode(op) == BinOperation(op)
  {
  }

  lemma UnaryCode(funcs: seq<FuncDecl>, st: CS, e: Expr, dest: Byte)
    requires e.Unary?
    ensures var (st1, tmp) := Alloc(st);
      var st2 := CompileExpr(funcs, st1, e.x, tmp);
      var st' := CompileExpr(funcs, st, e, dest);
      && st'.code == st2.code + [MakeABC(UnOperation(e.uop), dest, tmp, 0)] && |st'.code| == |st2.code| + 1
      && |st.code| <= |st2.code| && Grows(st1, st') && Grows(st2, st')
    ensures Mentions(e.x) <= Mentions(e)
  {
    UnaryMeant(e.uop);
    hide Eval;
    hide Alloc;
    hide Free;
    var (st1, tmp) := Alloc(st);
    var st2 := CompileExpr(funcs, st1, e.x, tmp);
    assert CompileExpr(funcs, st, e, dest) == Free(Emit(st2, MakeABC(UnOpcode(e.uop), dest, tmp, 0)), tmp);
    ShapeExpr(funcs, st1, e.x, tmp);
    ShapeAlloc(st);
    hide CompileExpr;
    ShapeFree(Emit(st2, MakeABC(UnOpcode(e.uop), dest, tmp, 0)), tmp);
  }

  lemma UnaryMeaning(P: Prog, E: Scope, e: Expr, w: World, fuel: nat)
    requires e.Unary?
    ensures var r := Eval(P, E, e.x, w, fuel);
      Eval(P, E, e, w, fuel) == if r.Val? then Ask(P, UnOperation(e.uop), [r.v], r.w) else r
    ensures Atomic(e)
  {
    hide Ask;
  }

  lemma UnaryOperands(regs: Regs, op: UnOp, dest: Byte, tmp: Byte)
    ensures var ins := MakeABC(UnOperation(op), dest, tmp, 0);
      IsPrim(ins.op) && Operands(regs, ins) == [Get(regs, tmp)] && ins.op == UnOperation(op) && ins.a == dest
  {
  }

  lemma {:induction false} UnaryCorrect(J: Job, k: Ctl, st: CS, e: Expr, dest: Byte, E: Scope, regs: Regs, w: World,
    live: set<int>, fuel: nat)
    returns (n: nat, regs': Regs)
    requires e.Unary? && Base(J, k, st, CompileExpr(J.P.funcs, st, e, dest), E, regs, live, Mentions(e))
    requires dest in live && CallsOk(J, fuel)
    ensures Ends(J, At(k, |st.code|, regs, w), k, |CompileExpr(J.P.funcs, st, e, dest).code|, dest, live - {dest}, regs,
                 Eval(J.P, E, e, w, fuel), fuel, Atomic(e), n, regs')
    decreases e, 1
  {
    hide *;
    var st' := CompileExpr(J.P.funcs, st, e, dest);
    var (st1, tmp) := Alloc(st);
    var st2 := CompileExpr(J.P.funcs, st1, e.x, tmp);
    var r := Eval(J.P, E, e.x, w, fuel);
    UnaryCode(J.P.funcs, st, e, dest);
    UnaryMeaning(J.P, E, e, w, fuel);
    BaseHosted(J, k, st, st', E, regs, live, Mentions(e));
    AllocBase(J, k, st, st', E, regs, live, Mentions(e));
    var s := At(k, |st.code|, regs, w);
    ReachStart(J, k, |st.code|, live, regs, w);
    var m, regs1 := Into(J, k, st1, st', E, regs, w, live + {tmp}, Mentions(e), tmp, e.x, fuel);
    if r.Val? {
      ReachNext(J, s, 0, k, |st.code|, live, regs, regs, w, |st2.code|, tmp, live, r, fuel, Atomic(e.x), m, regs1);
      UnaryOperands(regs1, e.uop, dest, tmp);
      n, regs' := PrimLast(J, k, st, st', s, m, |st2.code|, MakeABC(UnOperation(e.uop), dest, tmp, 0), [r.v], regs,
        regs1,
        r.w, live, fuel);
    } else {
      n, regs' := m, regs1;
      ReachFail(J, s, 0, k, |st.code|, live, regs, regs, w, |st2.code|, tmp, live, r, fuel, Atomic(e.x), m, regs1,
        |st'.code|, dest, true);
    }
  }

  lemma BaseHosted(J: Job, k: Ctl, st: CS, st': CS, E: Scope, regs: Regs, live: set<int>, names: set<Text>)
    requires Base(J, k, st, st', E, regs, live, names)
    ensures Hosted(J, k, st, st') && JobOk(J) && Inv(st) && Fine(st') && |st.code| <= |st'.code| < 0x8000
    ensures forall q :: q in live ==> Held(st, q)
  {
  }

  lemma BinaryCode(funcs: seq<FuncDecl>, st: CS, e: Expr, dest: Byte)
    requires e.Binary? && e.op != AndAnd && e.op != OrOr
    ensures var (st1, lr) := Alloc(st);
      var (st2, rr) := Alloc(st1);
      var st3 := CompileExpr(funcs, st2, e.left, lr);
      var st4 := CompileExpr(funcs, st3, e.right, rr);
      var st' := CompileExpr(funcs, st, e, dest);
      && st'.code == st4.code + [MakeABC(BinOperation(e.op), dest, lr, rr)] && |st'.code| == |st4.code| + 1
      && |st.code| <= |st4.code| && Grows(st1, st') && Grows(st2, st') && Grows(st3, st') && Grows(st4, st')
      && st2.locals == st1.locals
    ensures Mentions(e.left) <= Mentions(e) && Mentions(e.right) <= Mentions(e)
  {
    BinaryMeant(e.op);
    hide Alloc;
    hide Free;
    hide BinOpcode, BinOperation;
    var (st1, lr) := Alloc(st);
    var (st2, rr) := Alloc(st1);
    var st3 := CompileExpr(funcs, st2, e.left, lr);
    var st4 := CompileExpr(funcs, st3, e.right, rr);
    var st5 := Emit(st4, MakeABC(BinOpcode(e.op), dest, lr, rr));
    assert CompileBinary(funcs, st, e, dest) == Free(Free(st5, lr), rr) by { hide CompileExpr; }
    assert CompileExpr(funcs, st, e, dest) == CompileBinary(funcs, st, e, dest) by { hide CompileBinary; }
    hide CompileExpr;
    hide CompileBinary;
    ShapeAlloc(st);
    ShapeAlloc(st1);
    ShapeExpr(funcs, st2, e.left, lr);
    ShapeExpr(funcs, st3, e.right, rr);
    ShapeFree(st5, lr);
    ShapeFree(Free(st5, lr), rr);
    hide Inv;
    hide Keeps;
  }

  lemma BinaryMeaning(P: Prog, E: Scope, e: Expr, w: World, fuel: nat)
    requires e.Binary? && e.op != AndAnd && e.op != OrOr
    ensures var r := Eval(P, E, e.left, w, fuel);
      Eval(P, E, e, w, fuel) ==
        if !r.Val? then r else
        var q := Eval(P, E, e.right, r.w, fuel);
        if !q.Val? then q else Ask(P, BinOperation(e.op), [r.v, q.v], q.w)
    ensures Atomic(e)
  {
    hide Ask;
    hide Truthy;
  }

  lemma BinaryOperands(regs: Regs, op: BinOp, dest: Byte, lr: Byte, rr: Byte)
    requires op != AndAnd && op != OrOr
    ensures var ins := MakeABC(BinOperation(op), dest, lr, rr);
      IsPrim(ins.op) && Operands(regs, ins) == [Get(regs, lr), Get(regs, rr)] && ins.op == BinOperation(op)
        && ins.a == dest
  {
  }

  lemma {:induction false} BinaryCorrect(J: Job, k: Ctl, st: CS, e: Expr, dest: Byte, E: Scope, regs: Regs, w: World,
    live: set<int>, fuel: nat)
    returns (n: nat, regs': Regs)
    requires e.Binary? && e.op != AndAnd && e.op != OrOr
    requires Base(J, k, st, CompileExpr(J.P.funcs, st, e, dest), E, regs, live, Mentions(e))
    requires dest in live && CallsOk(J, fuel)
    ensures Ends(J, At(k, |st.code|, regs, w), k, |CompileExpr(J.P.funcs, st, e, dest).code|, dest, live - {dest}, regs,
                 Eval(J.P, E, e, w, fuel), fuel, Atomic(e), n, regs')
    decreases e, 1
  {
    hide *;
    var st' := CompileExpr(J.P.funcs, st, e, dest);
    var (st1, lr) := Alloc(st);
    var (st2, rr) := Alloc(st1);
    var st3 := CompileExpr(J.P.funcs, st2, e.left, lr);
    var st4 := CompileExpr(J.P.funcs, st3, e.right, rr);
    BinaryCode(J.P.funcs, st, e, dest);
    BinaryMeaning(J.P, E, e, w, fuel);
    BaseHosted(J, k, st, st', E, regs, live, Mentions(e));
    AllocBase(J, k, st, st', E, regs, live, Mentions(e));
    AllocBase(J, k, st1, st', E, regs, live + {lr}, Mentions(e));
    NoLocalSame(st1, st2, lr);
    var s := At(k, |st.code|, regs, w);
    var live2 := live + {lr} + {rr};
    var r := Eval(J.P, E, e.left, w, fuel);
    ReachStart(J, k, |st.code|, live, regs, w);
    var m1, regs1 := Into(J, k, st2, st', E, regs, w, live2, Mentions(e), lr, e.left, fuel);
    if !r.Val? {
      n, regs' := m1, regs1;
      ReachFail(J, s, 0, k, |st.code|, live, regs, regs, w, |st3.code|, lr, live2 - {lr}, r, fuel, Atomic(e.left), m1,
        regs1, |st'.code|, dest, true);
      return;
    }
    ReachNext(J, s, 0, k, |st.code|, live, regs, regs, w, |st3.code|, lr, live2 - {lr}, r, fuel, Atomic(e.left), m1,
      regs1);
    NoLocalSame(st2, st3, rr);
    var q := Eval(J.P, E, e.right, r.w, fuel);
    var m2, regs2 := Into(J, k, st3, st', E, regs1, r.w, live2, Mentions(e), rr, e.right, fuel);
    if !q.Val? {
      n, regs' := m1 + m2, regs2;
      ReachFail(J, s, m1, k, |st3.code|, live, regs, regs1, r.w, |st4.code|, rr, live2 - {rr}, q, fuel, Atomic(e.right),
        m2, regs2, |st'.code|, dest, true);
      return;
    }
    ReachNext(J, s, m1, k, |st3.code|, live, regs, regs1, r.w, |st4.code|, rr, live2 - {rr}, q, fuel, Atomic(e.right),
      m2, regs2);
    BinaryOperands(regs2, e.op, dest, lr, rr);
    n, regs' := PrimLast(J, k, st, st', s, m1 + m2, |st4.code|, MakeABC(BinOperation(e.op), dest, lr, rr), [r.v, q.v],
      regs, regs2, q.w, live, fuel);
  }

  // ---- short-circuit operators ----

  function LogicJump(op: BinOp, dest: Byte, off: int): Instr {
    MakeAsBx(if op == AndAnd then JF else JT, dest, ToI16(off))
  }

  lemma LogicCode(funcs: seq<FuncDecl>, st: CS, e: Expr, dest: Byte)
    requires e.Binary? && (e.op == AndAnd || e.op == OrOr)
    ensures var st1 := CompileExpr(funcs, st, e.left, dest);
      var a := Emit(st1, LogicJump(e.op, dest, 0));
      var st2 := CompileExpr(funcs, a, e.right, dest);
      var st' := CompileExpr(funcs, st, e, dest);
      && |st.code| <= |st1.code| < |st2.code| + 1 == |st'.code| + 1 && |st1.code| < |st'.code|
      && st'.code[|st1.code|] == LogicJump(e.op, dest, |st2.code| - |st1.code| - 1)
      && Shape(st, st1) && Shape(a, st2) && Grows(st1, st') && Within(a, st2, st') && |a.code| == |st1.code| + 1
      && Shape(st1, a)
    ensures Mentions(e.left) <= Mentions(e) && Mentions(e.right) <= Mentions(e)
  {
    hide ToI16;
    hide MakeAsBx;
    var st1 := CompileExpr(funcs, st, e.left, dest);
    var a := Emit(st1, LogicJump(e.op, dest, 0));
    var st2 := CompileExpr(funcs, a, e.right, dest);
    var off := |st2.code| - |st1.code| - 1;
    assert MakeAsBx(if e.op == AndAnd then JF else JT, dest, 0) == LogicJump(e.op, dest, 0) by { assert ToI16(0) == 0; }
    assert CompileBinary(funcs, st, e, dest) ==
      PatchSbx(st2, |st1.code|, off) by { hide CompileExpr; hide PatchSbx; hide LogicJump; }
    assert CompileExpr(funcs, st, e, dest) == CompileBinary(funcs, st, e, dest) by { hide CompileBinary; }
    hide CompileExpr;
    hide CompileBinary;
    ShapeExpr(funcs, st, e.left, dest);
    ShapeEmit(st1, LogicJump(e.op, dest, 0));
    ShapeExpr(funcs, a, e.right, dest);
    hide Inv;
    hide Keeps;
    assert st2.code[|st1.code|] == LogicJump(e.op, dest, 0);
  }

  lemma LogicMeaning(P: Prog, E: Scope, e: Expr, w: World, fuel: nat)
    requires e.Binary? && (e.op == AndAnd || e.op == OrOr)
    ensures var r := Eval(P, E, e.left, w, fuel);
      Eval(P, E, e, w, fuel) ==
        if !r.Val? || Truthy(P.env, r.w.trace, r.v) == (e.op == OrOr) then r else Eval(P, E, e.right, r.w, fuel)
    ensures !Atomic(e)
  {
    hide Ask;
    hide Truthy;
  }

  lemma LogicStep(J: Job, k: Ctl, ip: int, regs: Regs, w: World, op: BinOp, dest: Byte, off: int)
    requires op == AndAnd || op == OrOr
    requires Fetches(J, k, ip, LogicJump(op, dest, off)) && 0 <= off < 0x8000
    ensures Goes(J, At(k, ip, regs, w), 1,
              At(k, if Truthy(J.P.env, w.trace, Get(regs, dest)) == (op == OrOr) then ip + 1 + off
                else ip + 1, regs, w))
  {
    hide Goes;
    hide Truthy;
    StepJump(J, k, ip, regs, w, LogicJump(op, dest, off));
  }

  /** Before the right operand: dest holds the left value, and no later read is of a local kept there. */
  lemma LogicBase(J: Job, k: Ctl, st: CS, st': CS, e: Expr, dest: Byte, E: Scope, regs: Regs, w: World, live: set<int>,
    st1: CS, a: CS, st2: CS, regs1: Regs)
    requires e.Binary? && (e.op == AndAnd || e.op == OrOr) && DestOk(st.locals, e, dest)
    requires Base(J, k, st, st', E, regs, live, Mentions(e)) && dest in live
    requires Shape(st, st1) && Shape(st1, a) && Shape(a, st2) && Within(a, st2, st')
    requires Same(live - {dest}, regs, regs1)
    requires InPlace(st.locals, e.left, dest) ==> Get(regs1, dest) == Get(regs, dest)
    ensures Base(J, k, a, st2, E, regs1, live, Mentions(e.right))
  {
    assert Sees(st.locals, E, regs1, live, Mentions(e.right)) by {
      if InPlace(st.locals, e.left, dest) {
        assert Same(live, regs, regs1);
      }
    }
    hide Sees;
    assert Inv(st1) && Inv(a);
    hide Inv;
  }

  /** Reading a local into its own register changes nothing. */
  lemma InPlaceValue(J: Job, k: Ctl, st: CS, st': CS, e: Expr, dest: Byte, E: Scope, regs: Regs, w: World,
    live: set<int>, names: set<Text>, fuel: nat)
    requires Base(J, k, st, st', E, regs, live, names) && InPlace(st.locals, e, dest) && Mentions(e) <= names
    ensures Eval(J.P, E, e, w, fuel) == Val(Get(regs, dest), w)
  {
    assert e.name in Mentions(e);
    hide Ask;
  }

  lemma {:induction false} LogicCorrect(J: Job, k: Ctl, st: CS, e: Expr, dest: Byte, E: Scope, regs: Regs, w: World,
    live: set<int>, fuel: nat)
    returns (n: nat, regs': Regs)
    requires e.Binary? && (e.op == AndAnd || e.op == OrOr) && DestOk(st.locals, e, dest)
    requires Base(J, k, st, CompileExpr(J.P.funcs, st, e, dest), E, regs, live, Mentions(e))
    requires dest in live && CallsOk(J, fuel)
    ensures Ends(J, At(k, |st.code|, regs, w), k, |CompileExpr(J.P.funcs, st, e, dest).code|, dest, live - {dest}, regs,
                 Eval(J.P, E, e, w, fuel), fuel, Atomic(e), n, regs')
    decreases e, 1
  {
    hide *;
    LogicDest(st.locals, e, dest);
    var st' := CompileExpr(J.P.funcs, st, e, dest);
    var st1 := CompileExpr(J.P.funcs, st, e.left, dest);
    var a := Emit(st1, LogicJump(e.op, dest, 0));
    var st2 := CompileExpr(J.P.funcs, a, e.right, dest);
    LogicCode(J.P.funcs, st, e, dest);
    LogicMeaning(J.P, E, e, w, fuel);
    BaseHosted(J, k, st, st', E, regs, live, Mentions(e));
    IntoBase(J, k, st, st', E, regs, live, Mentions(e), st1, Mentions(e.left));
    var s := At(k, |st.code|, regs, w);
    var r := Eval(J.P, E, e.left, w, fuel);
    var m1, regs1 := ExpressionCorrect(J, k, st, e.left, dest, E, regs, w, live, fuel);
    if !r.Val? {
      n, regs' := m1, regs1;
      EndsElsewhere(J, s, k, |st1.code|, |st'.code|, dest, live - {dest}, regs, r, fuel, Atomic(e.left), m1, regs1);
      return;
    }
    EndsVal(J, s, k, |st1.code|, dest, live - {dest}, regs, r, fuel, Atomic(e.left), m1, regs1);
    FetchAt(J, k, st, st', |st1.code|, LogicJump(e.op, dest, |st2.code| - |st1.code| - 1));
    LogicStep(J, k, |st1.code|, regs1, r.w, e.op, dest, |st2.code| - |st1.code| - 1);
    var ip := if Truthy(J.P.env, r.w.trace, r.v) == (e.op == OrOr) then |st'.code| else |a.code|;
    GoesTrans(J, s, m1, At(k, |st1.code|, regs1, r.w), 1, At(k, ip, regs1, r.w));
    if Truthy(J.P.env, r.w.trace, r.v) == (e.op == OrOr) {
      n, regs' := m1 + 1, regs1;
      EndsIntro(J, s, k, |st'.code|, dest, live - {dest}, regs, r, fuel, Atomic(e), n, regs');
    } else {
      if InPlace(st.locals, e.left, dest) {
        InPlaceValue(J, k, st, st', e.left, dest, E, regs, w, live, Mentions(e), fuel);
      }
      LogicBase(J, k, st, st', e, dest, E, regs, w, live, st1, a, st2, regs1);
      ShapeLocals2(st, st1, a);
      var m2, regs2 := ExpressionCorrect(J, k, a, e.right, dest, E, regs1, r.w, live, fuel);
      n, regs' := m1 + 1 + m2, regs2;
      SameReach(J, s, m1 + 1, k, |a.code|, live - {dest}, regs, regs1, r.w);
      EndsWeak(J, At(k, |a.code|, regs1, r.w), k, |st'.code|, dest, live - {dest}, regs1,
        Eval(J.P, E, e.right, r.w, fuel), fuel, Atomic(e.right), m2, regs2);
      ReachEnd(J, s, m1 + 1, k, |a.code|, live - {dest}, regs, regs1, r.w, |st'.code|, dest, live - {dest},
        Eval(J.P, E, e.right, r.w, fuel), fuel, false, m2, regs2);
    }
  }

  lemma LogicDest(locals: map<Text, Byte>, e: Expr, dest: int)
    requires e.Binary? && (e.op == AndAnd || e.op == OrOr) && DestOk(locals, e, dest)
    ensures DestOk(locals, e.left, dest) && DestOk(locals, e.right, dest)
  {
  }

  lemma ShapeLocals2(a: CS, b: CS, c: CS)
    requires Shape(a, b) && Shape(b, c)
    ensures c.locals == a.locals
  {
  }

  lemma EndsElsewhere(J: Job, s: State, k: Ctl, ip1: int, ip2: int, dest: int, keep: set<int>, regs: Regs, r: Result,
    fuel: nat, at: bool, n: nat, regs': Regs)
    requires Ends(J, s, k, ip1, dest, keep, regs, r, fuel, at, n, regs') && !r.Val?
    ensures Ends(J, s, k, ip2, dest, keep, regs, r, fuel, false, n, regs')
  {
  }

  lemma EndsWeak(J: Job, s: State, k: Ctl, ip: int, dest: int, keep: set<int>, regs: Regs, r: Result, fuel: nat,
    at: bool, n: nat, regs': Regs)
    requires Ends(J, s, k, ip, dest, keep, regs, r, fuel, at, n, regs')
    ensures Ends(J, s, k, ip, dest, keep, regs, r, fuel, false, n, regs')
  {
  }

  lemma EndsVal(J: Job, s: State, k: Ctl, ip': int, dest: int, keep: set<int>, regs: Regs, r: Result, fuel: nat,
    atomic: bool, n: nat, regs': Regs)
    requires Ends(J, s, k, ip', dest, keep, regs, r, fuel, atomic, n, regs') && r.Val?
    ensures Goes(J, s, n, At(k, ip', regs', r.w)) && Get(regs', dest) == r.v && Same(keep, regs, regs')
  {
  }

  lemma EndsIntro(J: Job, s: State, k: Ctl, ip': int, dest: int, keep: set<int>, regs: Regs, r: Result, fuel: nat,
    atomic: bool, n: nat, regs': Regs)
    requires r.Val? && Goes(J, s, n, At(k, ip', regs', r.w)) && Get(regs', dest) == r.v && Same(keep, regs, regs')
    ensures Ends(J, s, k, ip', dest, keep, regs, r, fuel, atomic, n, regs')
  {
  }

  lemma SameReach(J: Job, s: State, n: nat, k: Ctl, ip: int, live: set<int>, regs0: Regs, regs: Regs, w: World)
    requires Goes(J, s, n, At(k, ip, regs, w)) && Same(live, regs0, regs)
    ensures Reached(J, s, n, k, ip, live, regs0, regs, w)
  {
  }

  // ---- conditions ----

  /** A condition has been decided: the machine is past the jump or at its target, with nothing live changed. */
  ghost predicate Decided(J: Job, s: State, k: Ctl, yes: int, no: int, live: set<int>, regs: Regs, r: Result, fuel: nat,
    n: nat, regs': Regs) {
    match r
    case Val(v, w') => n >= 1 && Reached(J, s, n, k, if Truthy(J.P.env, w'.trace, v) then yes
      else no, live, regs, regs', w')
    case Fails(msg, w') => n >= 1 && Goes(J, s, n, Throwing(J, k, regs', w', msg)) && Same(live, regs, regs')
    case Timeout(w') => Lives(J, s, fuel, w')
  }

  function FalseJump(cr: Byte, off: int): Instr { MakeAsBx(JF, cr, ToI16(off)) }

  lemma CondCode(funcs: seq<FuncDecl>, st: CS, c: Expr)
    ensures var (st1, cr) := Alloc(st);
      var st2 := CompileExpr(funcs, st1, c, cr);
      var st3 := CondJump(funcs, st, c);
      && Shape(st, st3) && Grows(st1, st3) && Grows(st2, st3) && |st.code| == |st1.code| <= |st2.code| == |st3.code| - 1
      && st3.code[|st2.code|].op == JF && st3.code[|st2.code|].a == cr
  {
    hide Alloc;
    hide Free;
    hide MakeAsBx;
    var (st1, cr) := Alloc(st);
    var st2 := CompileExpr(funcs, st1, c, cr);
    var ins := MakeAsBx(JF, cr, 0);
    assert CondJump(funcs, st, c) == Free(Emit(st2, ins), cr) by { hide CompileExpr; }
    ShapeExpr(funcs, st1, c, cr);
    hide CompileExpr;
    ShapeCondJump(funcs, st, c);
    hide CondJump;
    ShapeAlloc(st);
    ShapeFree(Emit(st2, ins), cr);
    hide Inv;
    hide Keeps;
  }

  lemma CondStep(J: Job, k: Ctl, ip: int, regs: Regs, w: World, cr: Byte, off: int)
    requires Fetches(J, k, ip, FalseJump(cr, off)) && 0 <= off < 0x8000
    ensures Goes(J, At(k, ip, regs, w), 1, At(k, if Truthy(J.P.env, w.trace, Get(regs, cr)) then ip + 1
      else ip + 1 + off, regs, w))
  {
    hide Goes;
    hide Truthy;
    StepJump(J, k, ip, regs, w, FalseJump(cr, off));
  }

  lemma {:induction false} CondCorrect(J: Job, k: Ctl, st: CS, st': CS, E: Scope, regs: Regs, w: World, live: set<int>,
    names: set<Text>, c: Expr, target: int, fuel: nat)
    returns (n: nat, regs': Regs)
    requires Base(J, k, st, st', E, regs, live, names) && Mentions(c) <= names && CallsOk(J, fuel)
    requires var st3 := CondJump(J.P.funcs, st, c);
      && Within(st3, st', st') && st3.peak <= st'.peak && st3.keys <= st'.keys && st3.errs <= st'.errs
        && st3.pool <= st'.pool
      && |st3.code| <= |st'.code| && st3.code[..|st3.code| - 1] <= st'.code
      && |st3.code| <= target < 0x8000
      && st'.code[|st3.code| - 1] == FalseJump(st3.code[|st3.code| - 1].a, target - |st3.code|)
    ensures var r := Eval(J.P, E, c, w, fuel);
      Decided(J, At(k, |st.code|, regs, w), k, |CondJump(J.P.funcs, st, c).code|, target, live, regs, r, fuel, n, regs')
    decreases c, 4
  {
    hide *;
    var (st1, cr) := Alloc(st);
    var st2 := CompileExpr(J.P.funcs, st1, c, cr);
    var st3 := CondJump(J.P.funcs, st, c);
    CondCode(J.P.funcs, st, c);
    CondGrows(st1, st2, st3, st');
    BaseHosted(J, k, st, st', E, regs, live, names);
    AllocBase(J, k, st, st', E, regs, live, names);
    var s := At(k, |st.code|, regs, w);
    var r := Eval(J.P, E, c, w, fuel);
    ReachStart(J, k, |st.code|, live, regs, w);
    var m, regs1 := Into(J, k, st1, st', E, regs, w, live + {cr}, names, cr, c, fuel);
    regs' := regs1;
    if r.Val? {
      ReachNext(J, s, 0, k, |st.code|, live, regs, regs, w, |st2.code|, cr, live, r, fuel, Atomic(c), m, regs1);
      FetchAt(J, k, st, st', |st2.code|, FalseJump(cr, target - |st3.code|));
      CondStep(J, k, |st2.code|, regs1, r.w, cr, target - |st3.code|);
      n := m + 1;
      ReachStep(J, s, m, k, |st2.code|, live, regs, regs1, r.w, if Truthy(J.P.env, r.w.trace, r.v) then |st3.code|
        else target);
      DecidedIntro(J, s, k, |st3.code|, target, live, regs, r, fuel, n, regs');
    } else {
      n := m;
      DecidedFail(J, s, k, |st3.code|, target, live, regs, r, fuel, |st2.code|, cr, Atomic(c), n, regs');
    }
  }

  lemma CondGrows(st1: CS, st2: CS, st3: CS, st': CS)
    requires Grows(st1, st3) && Grows(st2, st3) && |st2.code| == |st3.code| - 1 && |st1.code| <= |st2.code|
    requires st3.code[..|st3.code| - 1] <= st'.code && st3.pool <= st'.pool && st3.peak <= st'.peak
      && st3.keys <= st'.keys && st3.errs <= st'.errs
    ensures Grows(st1, st') && Grows(st2, st')
  {
  }

  lemma ReachStep(J: Job, s: State, n: nat, k: Ctl, ip: int, live: set<int>, regs0: Regs, regs: Regs, w: World,
    ip': int)
    requires Reached(J, s, n, k, ip, live, regs0, regs, w) && Goes(J, At(k, ip, regs, w), 1, At(k, ip', regs, w))
    ensures Reached(J, s, n + 1, k, ip', live, regs0, regs, w)
  {
    hide Goes;
    GoesTrans(J, s, n, At(k, ip, regs, w), 1, At(k, ip', regs, w));
  }

  lemma DecidedIntro(J: Job, s: State, k: Ctl, yes: int, no: int, live: set<int>, regs: Regs, r: Result, fuel: nat,
    n: nat, regs': Regs)
    requires r.Val? && n >= 1
    requires Reached(J, s, n, k, if Truthy(J.P.env, r.w.trace, r.v) then yes else no, live, regs, regs', r.w)
    ensures Decided(J, s, k, yes, no, live, regs, r, fuel, n, regs')
  {
    hide Reached;
    hide Truthy;
  }

  lemma DecidedFail(J: Job, s: State, k: Ctl, yes: int, no: int, live: set<int>, regs: Regs, r: Result, fuel: nat,
    ip: int, tmp: int, at: bool, n: nat, regs': Regs)
    requires !r.Val? && Ends(J, s, k, ip, tmp, live, regs, r, fuel, at, n, regs')
    ensures Decided(J, s, k, yes, no, live, regs, r, fuel, n, regs')
  {
  }

  /** A condition that fails or times out decides the whole expression. */
  lemma DecidedEnds(J: Job, s: State, k: Ctl, yes: int, no: int, live: set<int>, regs: Regs, r: Result, fuel: nat,
    n: nat, regs': Regs, ip: int, dest: int, atomic: bool)
    requires !r.Val? && Decided(J, s, k, yes, no, live, regs, r, fuel, n, regs') && dest in live
    ensures Ends(J, s, k, ip, dest, live - {dest}, regs, r, fuel, atomic, n, regs')
  {
  }

  lemma DecidedVal(J: Job, s: State, k: Ctl, yes: int, no: int, live: set<int>, regs: Regs, r: Result, fuel: nat,
    n: nat, regs': Regs)
    requires r.Val? && Decided(J, s, k, yes, no, live, regs, r, fuel, n, regs')
    ensures n >= 1 && Reached(J, s, n, k, if Truthy(J.P.env, r.w.trace, r.v) then yes else no, live, regs, regs', r.w)
  {
  }

  /** Moving the setting to a later piece of code, with other registers. */
  lemma BaseMove(J: Job, k: Ctl, st: CS, st': CS, E: Scope, regs: Regs, live: set<int>, names: set<Text>, a: CS, b: CS,
    regs1: Regs, names1: set<Text>)
    requires Base(J, k, st, st', E, regs, live, names) && Shape(st, a) && Shape(a, b) && Within(a, b, st')
    requires Same(live, regs, regs1) && names1 <= names
    ensures Base(J, k, a, b, E, regs1, live, names1)
  {
    assert Inv(a) && Keeps(st, a);
    hide Inv;
    BaseSub(J, k, st, st', E, regs, live, names, a, b, regs1, live, names1);
  }

  // ---- ternary ----

  lemma TernaryFrontIs(funcs: seq<FuncDecl>, st: CS, e: Expr, dest: Byte, c: CS, b: CS)
    requires e.Ternary? && c == CondJump(funcs, st, e.cond) && b == CompileExpr(funcs, c, e.thn, dest)
    ensures TernaryFront(funcs, st, e, dest) ==
      PatchSbx(Emit(b, MakeAsBx(JMP, 0, 0)), |c.code| - 1, |b.code| + 1 - |c.code|)
  {
    hide MakeAsBx;
    hide PatchSbx;
    hide CompileExpr;
    hide CondJump;
    hide Emit;
  }

  lemma TernaryIs(funcs: seq<FuncDecl>, st: CS, e: Expr, dest: Byte)
    requires e.Ternary?
    ensures var f := TernaryFront(funcs, st, e, dest);
      var g := CompileExpr(funcs, f, e.els, dest);
      CompileExpr(funcs, st, e, dest) == PatchSbx(g, |f.code| - 1, |g.code| - |f.code|)
    ensures Mentions(e.cond) <= Mentions(e) && Mentions(e.thn) <= Mentions(e) && Mentions(e.els) <= Mentions(e)
  {
    hide PatchSbx;
    hide TernaryFront;
  }

  lemma TernaryFrontCode(funcs: seq<FuncDecl>, st: CS, e: Expr, dest: Byte)
    requires e.Ternary?
    ensures var c := CondJump(funcs, st, e.cond);
      var b := CompileExpr(funcs, c, e.thn, dest);
      var f := TernaryFront(funcs, st, e, dest);
      && Shape(st, c) && Shape(c, b) && Shape(st, f)
      && |st.code| < |c.code| <= |b.code| == |f.code| - 1
      && Within(c, b, f) && c.pool <= f.pool && c.peak <= f.peak && c.keys <= f.keys && c.errs <= f.errs
        && c.code[..|c.code| - 1] <= f.code
      && f.code[|c.code| - 1] == FalseJump(c.code[|c.code| - 1].a, |f.code| - |c.code|)
      && f.code[|b.code|] == MakeAsBx(JMP, 0, 0)
  {
    hide MakeAsBx;
    hide ToI16;
    hide CompileExpr;
    hide CompileTernary;
    hide TernaryFront;
    hide CondJump;
    hide Inv;
    hide Keeps;
    var c := CondJump(funcs, st, e.cond);
    var b := CompileExpr(funcs, c, e.thn, dest);
    var b1 := Emit(b, MakeAsBx(JMP, 0, 0));
    var f := TernaryFront(funcs, st, e, dest);
    TernaryFrontIs(funcs, st, e, dest, c, b);
    ShapeCondJump(funcs, st, e.cond);
    CondCode(funcs, st, e.cond);
    ShapeExpr(funcs, c, e.thn, dest);
    ShapeTernaryFront(funcs, st, e, dest);
    assert b1.code[|c.code| - 1] == c.code[|c.code| - 1];
  }

  lemma TernaryCode(funcs: seq<FuncDecl>, st: CS, e: Expr, dest: Byte)
    requires e.Ternary?
    ensures var c := CondJump(funcs, st, e.cond);
      var b := CompileExpr(funcs, c, e.thn, dest);
      var f := TernaryFront(funcs, st, e, dest);
      var g := CompileExpr(funcs, f, e.els, dest);
      var st' := CompileExpr(funcs, st, e, dest);
      && Shape(st, c) && Shape(c, b) && Shape(st, f) && Shape(f, g)
      && |c.code| <= |b.code| == |f.code| - 1 && |st.code| < |c.code| && |f.code| <= |g.code| == |st'.code|
      && Within(c, b, st') && Within(f, g, st') && Within(c, st', st')
      && c.pool <= st'.pool && c.peak <= st'.peak && c.keys <= st'.keys && c.errs <= st'.errs
        && c.code[..|c.code| - 1] <= st'.code
      && st'.code[|c.code| - 1] == FalseJump(c.code[|c.code| - 1].a, |f.code| - |c.code|)
      && st'.code[|b.code|] == MakeAsBx(JMP, 0, ToI16(|g.code| - |f.code|))
    ensures Mentions(e.cond) <= Mentions(e) && Mentions(e.thn) <= Mentions(e) && Mentions(e.els) <= Mentions(e)
  {
    hide MakeAsBx;
    hide ToI16;
    hide CompileExpr;
    hide CompileTernary;
    hide TernaryFront;
    hide CondJump;
    hide Inv;
    hide Keeps;
    hide FalseJump;
    TernaryFrontCode(funcs, st, e, dest);
    var f := TernaryFront(funcs, st, e, dest);
    var g := CompileExpr(funcs, f, e.els, dest);
    TernaryIs(funcs, st, e, dest);
    ShapeExpr(funcs, f, e.els, dest);
    assert g.code[|f.code| - 1] == MakeAsBx(JMP, 0, 0);
  }

  lemma TernaryMeaning(P: Prog, E: Scope, e: Expr, w: World, fuel: nat)
    requires e.Ternary?
    ensures var r := Eval(P, E, e.cond, w, fuel);
      Eval(P, E, e, w, fuel) ==
        if !r.Val? then r else if Truthy(P.env, r.w.trace, r.v) then Eval(P, E, e.thn, r.w, fuel)
          else Eval(P, E, e.els, r.w, fuel)
    ensures Atomic(e) == (Atomic(e.thn) && Atomic(e.els))
  {
    hide Ask;
    hide Truthy;
  }

  lemma TernaryDest(locals: map<Text, Byte>, e: Expr, dest: int)
    requires e.Ternary? && DestOk(locals, e, dest)
    ensures DestOk(locals, e.thn, dest) && DestOk(locals, e.els, dest)
  {
  }

  lemma JumpStep(J: Job, k: Ctl, ip: int, regs: Regs, w: World, off: int)
    requires Fetches(J, k, ip, MakeAsBx(JMP, 0, ToI16(off))) && -0x8000 <= off < 0x8000
    ensures Goes(J, At(k, ip, regs, w), 1, At(k, ip + 1 + off, regs, w))
  {
    hide *;
    var ins := MakeAsBx(JMP, 0, ToI16(off));
    JumpWord(off);
    AlwaysTaken(J.P.env, w.trace, regs, ins);
    StepJump(J, k, ip, regs, w, ins);
  }

  lemma JumpWord(off: int)
    requires -0x8000 <= off < 0x8000
    ensures MakeAsBx(JMP, 0, ToI16(off)).op == JMP && MakeAsBx(JMP, 0, ToI16(off)).SBx() == off
  {
    SBxOf(JMP, 0, ToI16(off));
    hide Instr.SBx;
  }

  lemma AlwaysTaken(env: Env, tr: Trace, regs: Regs, ins: Instr)
    requires ins.op == JMP
    ensures IsJump(ins.op) && Taken(env, tr, regs, ins)
  {
    hide Truthy, Get;
  }

  /** The first branch is followed by a jump over the second. */
  lemma EndsJump(J: Job, s: State, k: Ctl, ip: int, off: int, dest: int, keep: set<int>, regs: Regs, r: Result,
    fuel: nat, at: bool, atomic: bool, m: nat, regs': Regs)
    returns (n: nat)
    requires Ends(J, s, k, ip, dest, keep, regs, r, fuel, at, m, regs') && (atomic ==> at)
    requires Fetches(J, k, ip, MakeAsBx(JMP, 0, ToI16(off))) && -0x8000 <= off < 0x8000
    ensures Ends(J, s, k, ip + 1 + off, dest, keep, regs, r, fuel, atomic, n, regs')
  {
    n := m;
    if r.Val? {
      JumpStep(J, k, ip, regs', r.w, off);
      hide Goes;
      n := m + 1;
      GoesTrans(J, s, m, At(k, ip, regs', r.w), 1, At(k, ip + 1 + off, regs', r.w));
    }
  }

  lemma {:induction false} TernaryCorrect(J: Job, k: Ctl, st: CS, e: Expr, dest: Byte, E: Scope, regs: Regs, w: World,
    live: set<int>, fuel: nat)
    returns (n: nat, regs': Regs)
    requires e.Ternary? && DestOk(st.locals, e, dest)
    requires Base(J, k, st, CompileExpr(J.P.funcs, st, e, dest), E, regs, live, Mentions(e))
    requires dest in live && CallsOk(J, fuel)
    ensures Ends(J, At(k, |st.code|, regs, w), k, |CompileExpr(J.P.funcs, st, e, dest).code|, dest, live - {dest}, regs,
                 Eval(J.P, E, e, w, fuel), fuel, Atomic(e), n, regs')
    decreases e, 1
  {
    hide *;
    var st' := CompileExpr(J.P.funcs, st, e, dest);
    var c := CondJump(J.P.funcs, st, e.cond);
    var b := CompileExpr(J.P.funcs, c, e.thn, dest);
    var f := TernaryFront(J.P.funcs, st, e, dest);
    var g := CompileExpr(J.P.funcs, f, e.els, dest);
    TernaryCode(J.P.funcs, st, e, dest);
    TernaryMeaning(J.P, E, e, w, fuel);
    TernaryDest(st.locals, e, dest);
    BaseHosted(J, k, st, st', E, regs, live, Mentions(e));
    var s := At(k, |st.code|, regs, w);
    var r := Eval(J.P, E, e.cond, w, fuel);
    var m, regs1 := CondCorrect(J, k, st, st', E, regs, w, live, Mentions(e), e.cond, |f.code|, fuel);
    if !r.Val? {
      n, regs' := m, regs1;
      DecidedEnds(J, s, k, |c.code|, |f.code|, live, regs, r, fuel, m, regs1, |st'.code|, dest, Atomic(e));
      return;
    }
    DecidedVal(J, s, k, |c.code|, |f.code|, live, regs, r, fuel, m, regs1);
    if Truthy(J.P.env, r.w.trace, r.v) {
      ReachedSame(J, s, m, k, |c.code|, live, regs, regs1, r.w);
      BaseMove(J, k, st, st', E, regs, live, Mentions(e), c, b, regs1, Mentions(e.thn));
      ShapeLocals(st, c);
      var m2, regs2 := ExpressionCorrect(J, k, c, e.thn, dest, E, regs1, r.w, live, fuel);
      FetchAt(J, k, st, st', |b.code|, MakeAsBx(JMP, 0, ToI16(|g.code| - |f.code|)));
      var m3 := EndsJump(J, At(k, |c.code|, regs1, r.w), k, |b.code|, |g.code| - |f.code|, dest, live - {dest}, regs1,
                         Eval(J.P, E, e.thn, r.w, fuel), fuel, Atomic(e.thn), Atomic(e), m2, regs2);
      n, regs' := m + m3, regs2;
      ReachEnd(J, s, m, k, |c.code|, live, regs, regs1, r.w, |st'.code|, dest, live - {dest},
        Eval(J.P, E, e.thn, r.w, fuel), fuel, Atomic(e), m3, regs2);
    } else {
      ReachedSame(J, s, m, k, |f.code|, live, regs, regs1, r.w);
      BaseMove(J, k, st, st', E, regs, live, Mentions(e), f, g, regs1, Mentions(e.els));
      ShapeLocals(st, f);
      var m2, regs2 := ExpressionCorrect(J, k, f, e.els, dest, E, regs1, r.w, live, fuel);
      n, regs' := m + m2, regs2;
      EndsAtomic(J, At(k, |f.code|, regs1, r.w), k, |st'.code|, dest, live - {dest}, regs1,
        Eval(J.P, E, e.els, r.w, fuel), fuel, Atomic(e.els), Atomic(e), m2, regs2);
      ReachEnd(J, s, m, k, |f.code|, live, regs, regs1, r.w, |st'.code|, dest, live - {dest},
        Eval(J.P, E, e.els, r.w, fuel), fuel, Atomic(e), m2, regs2);
    }
  }

  lemma EndsAtomic(J: Job, s: State, k: Ctl, ip: int, dest: int, keep: set<int>, regs: Regs, r: Result, fuel: nat,
    at: bool, atomic: bool, n: nat, regs': Regs)
    requires Ends(J, s, k, ip, dest, keep, regs, r, fuel, at, n, regs') && (atomic ==> at)
    ensures Ends(J, s, k, ip, dest, keep, regs, r, fuel, atomic, n, regs')
  {
  }

  lemma ReachedSame(J: Job, s: State, n: nat, k: Ctl, ip: int, live: set<int>, regs0: Regs, regs: Regs, w: World)
    requires Reached(J, s, n, k, ip, live, regs0, regs, w)
    ensures Same(live, regs0, regs)
  {
  }

  // ---- calls ----

  lemma ReturnTo(J: Job, k2: Ctl, k: Ctl, ip: int, regs: Regs, w: World, v: Value)
    requires k2.rest == k.rest + [Top(k, ip, regs)] && k2.callers == k.callers
    ensures Returned(J, k2, w, v) == At(k, ip, regs[k2.retReg := v], w)
  {
    assert (k2.rest + [Top(k2, 0, map[])])[..|k2.rest|] == k2.rest;
    var vm1 := VM(k2.rest, k2.callers, w.globals, [], w.trace);
    SetTopMk(k, ip, regs, w, Top(k, ip, regs[k2.retReg := v]));
    assert vm1 == MkVM(k, ip, regs, w);
    hide Finish;
  }

  /** The level on which a callback runs. */
  function CallBackCtl(k: Ctl, ip: int, regs: Regs, id: nat, args: seq<Value>, answers: seq<Outcome>, a: Byte, ix: nat,
    ups: Upvals): Ctl {
    Ctl([], k.callers + [Caller(k.rest + [Top(k, ip, regs)], id, args, answers, a)], ix, ups, 0, [])
  }

  lemma BackFrom(J: Job, k: Ctl, ip: int, regs: Regs, id: nat, args: seq<Value>, answers: seq<Outcome>, a: Byte,
    ix: nat, ups: Upvals, w: World, out: Outcome, frames: seq<Frame>, cells: seq<seq<Value>>)
    ensures var k3 := CallBackCtl(k, ip, regs, id, args, answers, a, ix, ups);
      Finish(J.P.env, J.ch, VM(frames, k3.callers, w.globals, [], w.trace), out) ==
        Enter(J.P.env, J.ch, MkVM(k, ip, regs, w), id, args, answers + [out], a)
  {
    var k3 := CallBackCtl(k, ip, regs, id, args, answers, a, ix, ups);
    assert k3.callers[..|k.callers|] == k.callers;
    hide Enter;
  }

  lemma UnwindNone(f: Frame, msg: Text)
    requires f.tries == []
    ensures Unwind([f], msg) == Uncaught
  {
    assert [f][..0] == [];
  }

  lemma BackReturned(J: Job, k: Ctl, ip: int, regs: Regs, id: nat, args: seq<Value>, answers: seq<Outcome>, a: Byte,
    ix: nat, ups: Upvals, w: World, v: Value)
    ensures Returned(J, CallBackCtl(k, ip, regs, id, args, answers, a, ix, ups), w, v) ==
        Enter(J.P.env, J.ch, MkVM(k, ip, regs, w), id, args, answers + [Ok(v)], a)
  {
    var k3 := CallBackCtl(k, ip, regs, id, args, answers, a, ix, ups);
    BackFrom(J, k, ip, regs, id, args, answers, a, ix, ups, w, Ok(v), [], []);
    assert (k3.rest + [Top(k3, 0, map[])])[..|k3.rest|] == [];
    hide Finish;
    hide Enter;
  }

  lemma BackThrowing(J: Job, k: Ctl, ip: int, regs: Regs, id: nat, args: seq<Value>, answers: seq<Outcome>, a: Byte,
    ix: nat, ups: Upvals, w: World, regs3: Regs, msg: Text)
    ensures Throwing(J, CallBackCtl(k, ip, regs, id, args, answers, a, ix, ups), regs3, w, msg) ==
        Enter(J.P.env, J.ch, MkVM(k, ip, regs, w), id, args, answers + [Err(msg)], a)
  {
    var k3 := CallBackCtl(k, ip, regs, id, args, answers, a, ix, ups);
    BackFrom(J, k, ip, regs, id, args, answers, a, ix, ups, w, Err(msg), [Top(k3, 0, regs3)], []);
    assert k3.rest + [Top(k3, 0, regs3)] == [Top(k3, 0, regs3)];
    UnwindNone(Top(k3, 0, regs3), msg);
    hide Finish;
    hide Enter;
  }

  /** A native answers, fails, or calls back. */
  function NativeResult(J: Job, k: Ctl, ip: int, regs: Regs, w1: World, id: nat, args: seq<Value>,
    answers: seq<Outcome>, a: Byte, step: NativeStep): State
  {
    match step
    case Return(v) => At(k, ip, regs[a := v], w1)
    case Fail(msg) => Throwing(J, k, regs, w1, msg)
    case CallBack(ix, ups, cargs) =>
      At(CallBackCtl(k, ip, regs, id, args, answers, a, ix, ups), 0, NewFrame(J.ch, ix, NoUpvals, cargs, 0).regs, w1)
  }

  lemma EnterIs(J: Job, k: Ctl, ip: int, regs: Regs, w: World, id: nat, args: seq<Value>, answers: seq<Outcome>,
    a: Byte)
    ensures var e := CallNative(id, args, answers);
      Enter(J.P.env, J.ch, MkVM(k, ip, regs, w), id, args, answers, a) ==
        NativeResult(J, k, ip, regs, w.(trace := w.trace + [e]), id, args, answers, a, J.P.env.native(w.trace, e))
  {
    var e := CallNative(id, args, answers);
    var w1 := w.(trace := w.trace + [e]);
    match J.P.env.native(w.trace, e)
    case Return(v) => SetTopMk(k, ip, regs, w1, Top(k, ip, regs[a := v]));
    case Fail(msg) => RaiseTop(J, k, ip, regs, w1, msg);
    case CallBack(ix, ups, cargs) =>
      var k3 := CallBackCtl(k, ip, regs, id, args, answers, a, ix, ups);
      assert [] + [NewFrame(J.ch, ix, ups, cargs, 0)] == [NewFrame(J.ch, ix, ups, cargs, 0)];
      assert Top(k3, 0, NewFrame(J.ch, ix, NoUpvals, cargs, 0).regs) == NewFrame(J.ch, ix, ups, cargs, 0);
  }

  /** A callback to a function that is not there fails at once. */
  lemma BadCallBack(J: Job, k3: Ctl, regs: Regs, w: World)
    requires k3.proto >= |J.ch.protos| && k3.tries == [] && k3.rest == []
    ensures Goes(J, At(k3, 0, regs, w), 1, Throwing(J, k3, regs, w, Ascii("CallClosure: nil closure")))
  {
    hide Finish;
    assert k3.rest + [Top(k3, 0, regs)] == [Top(k3, 0, regs)];
    UnwindNone(Top(k3, 0, regs), Ascii("CallClosure: nil closure"));
    GoesOne(J, At(k3, 0, regs, w), Throwing(J, k3, regs, w, Ascii("CallClosure: nil closure")));
  }

  /** s leads to the end of a native call: its value is in R[a] of the frame that made it. */
  ghost predicate NativeEnds(J: Job, s: State, k: Ctl, ip: int, regs: Regs, a: Byte, r: Result, lives: nat, n: nat) {
    match r
    case Val(v, w') => Goes(J, s, n, At(k, ip, regs[a := v], w'))
    case Fails(msg, w') => Goes(J, s, n, Throwing(J, k, regs, w', msg))
    case Timeout(w') => Lives(J, s, lives, w')
  }

  lemma NativeSeq(J: Job, s: State, m: nat, t: State, k: Ctl, ip: int, regs: Regs, a: Byte, r: Result, lives: nat,
    lives1: nat, n: nat)
    requires Goes(J, s, m, t) && NativeEnds(J, t, k, ip, regs, a, r, lives1, n) && lives <= m + lives1
    ensures NativeEnds(J, s, k, ip, regs, a, r, lives, m + n)
  {
    hide Goes;
    hide Lives;
    match r
    case Val(v, w') => GoesTrans(J, s, m, t, n, At(k, ip, regs[a := v], w'));
    case Fails(msg, w') => GoesTrans(J, s, m, t, n, Throwing(J, k, regs, w', msg));
    case Timeout(w') =>
      LivesAfter(J, s, m, t, lives1, w');
      LivesMono(J, s, lives, m + lives1, w');
  }

  function Pred(fuel: nat): nat { if fuel == 0 then 0 else fuel - 1 }

  lemma {:induction false} NativeCorrect(J: Job, k: Ctl, ip: int, regs: Regs, w: World, id: nat, args: seq<Value>,
    answers: seq<Outcome>, a: Byte, fuel: nat)
    returns (n: nat)
    requires JobOk(J) && CallsOk(J, fuel)
    ensures NativeEnds(J, Enter(J.P.env, J.ch, MkVM(k, ip, regs, w), id, args, answers, a), k, ip, regs, a,
                       RunNative(J.P, id, args, answers, w, fuel), Pred(fuel), n)
    decreases fuel, 2
  {
    hide Enter;
    hide CallBackCtl;
    hide CallBackResult;
    hide Resume;
    hide Throwing;
    hide Returned;
    hide NewFrame;
    hide CallsOk;
    hide JobOk;
    EnterIs(J, k, ip, regs, w, id, args, answers, a);
    var e := CallNative(id, args, answers);
    var w1 := w.(trace := w.trace + [e]);
    var s := Enter(J.P.env, J.ch, MkVM(k, ip, regs, w), id, args, answers, a);
    n := 0;
    match J.P.env.native(w.trace, e)
    case Return(v) => GoesZero(J, s);
    case Fail(msg) => GoesZero(J, s);
    case CallBack(ix, ups, cargs) =>
      if fuel == 0 {
        LivesZero(J, CallBackCtl(k, ip, regs, id, args, answers, a, ix, ups), 0,
          NewFrame(J.ch, ix, NoUpvals, cargs, 0).regs, w1);
      } else {
        n := CallBackCorrect(J, k, ip, regs, w1, id, args, answers, a, ix, ups, cargs, fuel);
      }
  }

  lemma {:induction false} CallBackCorrect(J: Job, k: Ctl, ip: int, regs: Regs, w1: World, id: nat, args: seq<Value>,
    answers: seq<Outcome>, a: Byte, ix: nat, ups: Upvals, cargs: seq<Value>, fuel: nat)
    returns (n: nat)
    requires JobOk(J) && CallsOk(J, fuel) && fuel > 0
    ensures NativeEnds(J, At(CallBackCtl(k, ip, regs, id, args, answers, a, ix, ups), 0,
      NewFrame(J.ch, ix, NoUpvals, cargs, 0).regs, w1),
                       k, ip, regs, a, Resume(J.P, id, args, answers, CallBackResult(J.P, ix, cargs, w1, fuel - 1),
                         fuel - 1), Pred(fuel), n)
    decreases fuel, 1
  {
    hide *;
    var k3 := CallBackCtl(k, ip, regs, id, args, answers, a, ix, ups);
    var s := At(k3, 0, NewFrame(J.ch, ix, NoUpvals, cargs, 0).regs, w1);
    var r := CallBackResult(J.P, ix, cargs, w1, fuel - 1);
    CallsFewer(J, fuel);
    var m, regs3 := CallBackRuns(J, k, ip, regs, w1, id, args, answers, a, ix, ups, cargs, fuel);
    ResumeIs(J.P, id, args, answers, r, fuel - 1);
    if r.Val? {
      BackReturned(J, k, ip, regs, id, args, answers, a, ix, ups, r.w, r.v);
      n := Reentered(J, k, ip, regs, r.w, id, args, answers + [Ok(r.v)], a, fuel, s, m);
    } else if r.Fails? {
      BackThrowing(J, k, ip, regs, id, args, answers, a, ix, ups, r.w, regs3, r.msg);
      n := Reentered(J, k, ip, regs, r.w, id, args, answers + [Err(r.msg)], a, fuel, s, m);
    } else {
      n := 0;
      NativeTimeout(J, s, k, ip, regs, a, fuel, r.w);
    }
  }

  lemma NativeTimeout(J: Job, s: State, k: Ctl, ip: int, regs: Regs, a: Byte, fuel: nat, w: World)
    requires fuel > 0 && Lives(J, s, fuel - 1, w)
    ensures NativeEnds(J, s, k, ip, regs, a, Timeout(w), Pred(fuel), 0)
  {
  }

  lemma ResumeIs(P: Prog, id: nat, args: seq<Value>, answers: seq<Outcome>, r: Result, fuel: nat)
    ensures Resume(P, id, args, answers, r, fuel) ==
      if r.Val? then RunNative(P, id, args, answers + [Ok(r.v)], r.w, fuel)
      else if r.Fails? then RunNative(P, id, args, answers + [Err(r.msg)], r.w, fuel) else Timeout(r.w)
  {
    hide RunNative;
  }

  /** The called back function runs on its own level. */
  lemma CallBackRuns(J: Job, k: Ctl, ip: int, regs: Regs, w1: World, id: nat, args: seq<Value>, answers: seq<Outcome>,
    a: Byte, ix: nat, ups: Upvals, cargs: seq<Value>, fuel: nat)
    returns (m: nat, regs3: Regs)
    requires JobOk(J) && CallsOk(J, fuel) && fuel > 0
    ensures var k3 := CallBackCtl(k, ip, regs, id, args, answers, a, ix, ups);
      var s := At(k3, 0, NewFrame(J.ch, ix, NoUpvals, cargs, 0).regs, w1);
      var r := CallBackResult(J.P, ix, cargs, w1, fuel - 1);
      && (r.Val? ==> m >= 1 && Goes(J, s, m, Returned(J, k3, r.w, r.v)))
      && (r.Fails? ==> m >= 1 && Goes(J, s, m, Throwing(J, k3, regs3, r.w, r.msg)))
      && (r.Timeout? ==> Lives(J, s, fuel - 1, r.w))
  {
    hide CallFunc;
    hide NewFrame;
    hide Returned;
    hide Throwing;
    var k3 := CallBackCtl(k, ip, regs, id, args, answers, a, ix, ups);
    var s := At(k3, 0, NewFrame(J.ch, ix, NoUpvals, cargs, 0).regs, w1);
    var r := CallBackResult(J.P, ix, cargs, w1, fuel - 1);
    m, regs3 := 1, NewFrame(J.ch, ix, NoUpvals, cargs, 0).regs;
    if ix >= |J.P.funcs| {
      BadCallBack(J, k3, regs3, w1);
    } else {
      assert CallEnds(J, k3, ix, cargs, w1, fuel - 1);
      hide CallsOk;
      hide JobOk;
      hide Goes;
      if r.Val? {
        m :| m >= 1 && Goes(J, s, m, Returned(J, k3, r.w, r.v));
      } else if r.Fails? {
        m, regs3 :| m >= 1 && Goes(J, s, m, Throwing(J, k3, regs3, r.w, r.msg));
      }
    }
  }

  lemma CallsFewer(J: Job, fuel: nat)
    requires CallsOk(J, fuel)
    ensures forall f: nat :: f <= fuel ==> CallsOk(J, f)
  {
  }

  /** The native is re-entered with the outcome of its callback. */
  lemma {:induction false} Reentered(J: Job, k: Ctl, ip: int, regs: Regs, w: World, id: nat, args: seq<Value>,
    answers: seq<Outcome>, a: Byte, fuel: nat, s: State, m: nat)
    returns (n: nat)
    requires fuel > 0 && JobOk(J) && CallsOk(J, fuel - 1) && m >= 1
    requires Goes(J, s, m, Enter(J.P.env, J.ch, MkVM(k, ip, regs, w), id, args, answers, a))
    ensures NativeEnds(J, s, k, ip, regs, a, RunNative(J.P, id, args, answers, w, fuel - 1), Pred(fuel), n)
    decreases fuel - 1, 3
  {
    hide *;
    var n1 := NativeCorrect(J, k, ip, regs, w, id, args, answers, a, fuel - 1);
    n := m + n1;
    PredLe(fuel);
    NativeSeq(J, s, m, Enter(J.P.env, J.ch, MkVM(k, ip, regs, w), id, args, answers, a), k, ip, regs, a,
              RunNative(J.P, id, args, answers, w, fuel - 1), Pred(fuel), Pred(fuel - 1), n1);
  }

  lemma PredLe(fuel: nat)
    requires fuel > 0
    ensures Pred(fuel) <= 1 + Pred(fuel - 1)
  {
  }

  lemma CallStepIs(J: Job, k: Ctl, ip: int, regs: Regs, w: World, dest: Byte, base: Byte, n: Byte)
    requires Fetches(J, k, ip, MakeABC(CALL, dest, base, n))
    ensures Step(J.P.env, J.ch, At(k, ip, regs, w)) ==
      DoCall(J.P.env, J.ch, MkVM(k, ip, regs, w), Top(k, ip + 1, regs), MakeABC(CALL, dest, base, n))
  {
    FetchStep(J, k, ip, regs, w, MakeABC(CALL, dest, base, n));
    hide DoCall;
  }

  /** The frame of a called function. */
  function CalleeCtl(k: Ctl, ip: int, regs: Regs, ix: nat, ups: Upvals, dest: Byte): Ctl {
    Ctl(k.rest + [Top(k, ip, regs)], k.callers, ix, ups, dest, [])
  }

  function CallResult(J: Job, k: Ctl, ip: int, regs: Regs, w: World, dest: Byte, fv: Value, vs: seq<Value>): State {
    match fv
    case Native(id) => Enter(J.P.env, J.ch, MkVM(k, ip + 1, regs, w), id, vs, [], dest)
    case Func(ix, ups) =>
      if ix < |J.ch.protos| then At(CalleeCtl(k, ip + 1, regs, ix, ups, dest), 0,
        NewFrame(J.ch, ix, NoUpvals, vs, 0).regs, w)
      else Throwing(J, k, regs, w, Ascii("nil func"))
    case _ => Throwing(J, k, regs, w, Ascii("cannot call ") + TypeName(fv))
  }

  lemma DoCallIs(J: Job, k: Ctl, ip: int, regs: Regs, w: World, dest: Byte, base: Byte, n: Byte, vs: seq<Value>)
    requires vs == Range(regs, base + 1, n)
    ensures DoCall(J.P.env, J.ch, MkVM(k, ip, regs, w), Top(k, ip + 1, regs), MakeABC(CALL, dest, base, n)) ==
        CallResult(J, k, ip, regs, w, dest, Get(regs, base), vs)
  {
    hide Range;
    hide Raise;
    hide Enter;
    var fv := Get(regs, base);
    SetTopMk(k, ip, regs, w, Top(k, ip + 1, regs));
    if fv.Func? {
      if fv.proto < |J.ch.protos| {
        var k2 := CalleeCtl(k, ip + 1, regs, fv.proto, fv.ups, dest);
        assert Top(k2, 0, NewFrame(J.ch, fv.proto, NoUpvals, vs, 0).regs) == NewFrame(J.ch, fv.proto, fv.ups, vs, dest);
      } else {
        RaiseTop(J, k, ip + 1, regs, w, Ascii("nil func"));
      }
    } else if !fv.Native? {
      RaiseTop(J, k, ip + 1, regs, w, Ascii("cannot call ") + TypeName(fv));
    }
  }

  lemma {:induction false} ApplyCorrect(J: Job, k: Ctl, ip: int, regs: Regs, w: World, dest: Byte, base: Byte,
    cnt: Byte, fv: Value, vs: seq<Value>, live: set<int>, fuel: nat)
    returns (n: nat, regs': Regs)
    requires JobOk(J) && CallsOk(J, fuel) && Fetches(J, k, ip, MakeABC(CALL, dest, base, cnt))
    requires Get(regs, base) == fv && Range(regs, base + 1, cnt) == vs
    ensures Ends(J, At(k, ip, regs, w), k, ip + 1, dest, live - {dest}, regs, Apply(J.P, fv, vs, w, fuel), fuel, true,
      n, regs')
  {
    var s := At(k, ip, regs, w);
    CallStepIs(J, k, ip, regs, w, dest, base, cnt);
    DoCallIs(J, k, ip, regs, w, dest, base, cnt, vs);
    GoesOne(J, s, DoCall(J.P.env, J.ch, MkVM(k, ip, regs, w), Top(k, ip + 1, regs), MakeABC(CALL, dest, base, cnt)));
    hide DoCall;
    hide Step;
    hide Enter;
    hide Throwing;
    hide RunNative;
    hide CallFunc;
    hide Range;
    hide NewFrame;
    hide Goes;
    match fv
    case Native(id) =>
      var m := NativeCorrect(J, k, ip + 1, regs, w, id, vs, [], dest, fuel);
      n, regs' := NativeWrap(J, s, Enter(J.P.env, J.ch, MkVM(k, ip + 1, regs, w), id, vs, [], dest), k, ip + 1, regs, w,
        dest, live,
                             RunNative(J.P, id, vs, [], w, fuel), fuel, m, ip);
    case Func(ix, ups) =>
      if ix < |J.ch.protos| {
        if fuel == 0 {
          n, regs' := 0, regs;
          LivesZero(J, k, ip, regs, w);
        } else {
          n, regs' := CalleeCorrect(J, k, ip, regs, w, dest, ix, ups, vs, live, fuel);
        }
      } else {
        n, regs' := 1, regs;
      }
    case _ => n, regs' := 1, regs;
  }

  lemma NativeWrap(J: Job, s: State, t: State, k: Ctl, ip': int, regs: Regs, w: World, dest: Byte, live: set<int>,
    r: Result, fuel: nat, m: nat, ip: int)
    returns (n: nat, regs': Regs)
    requires s == At(k, ip, regs, w) && Goes(J, s, 1, t) && NativeEnds(J, t, k, ip', regs, dest, r, Pred(fuel), m)
    ensures Ends(J, s, k, ip', dest, live - {dest}, regs, r, fuel, true, n, regs')
  {
    n := 1 + m;
    regs' := if r.Val? then regs[dest := r.v] else regs;
    hide Goes;
    hide Lives;
    match r
    case Val(v, w') => GoesTrans(J, s, 1, t, m, At(k, ip', regs[dest := v], w'));
    case Fails(msg, w') => GoesTrans(J, s, 1, t, m, Throwing(J, k, regs, w', msg));
    case Timeout(w') =>
      LivesAfter(J, s, 1, t, Pred(fuel), w');
      LivesMono(J, s, fuel, 1 + Pred(fuel), w');
  }

  /** A call from a frame comes back to it with the value, or raises in it. */
  lemma CallGives(J: Job, k2: Ctl, k: Ctl, ip: int, regs: Regs, w: World, ix: nat, args: seq<Value>,
    dest: Byte, fuel: nat)
    returns (m: nat)
    requires ix < |J.P.funcs| && CallEnds(J, k2, ix, args, w, fuel)
    requires k2.tries == [] && k2.rest == k.rest + [Top(k, ip, regs)] && k2.callers == k.callers && k2.retReg == dest
    ensures NativeEnds(J, At(k2, 0, NewFrame(J.ch, ix, NoUpvals, args, 0).regs, w), k, ip, regs, dest,
      CallFunc(J.P, ix, args, w, fuel), fuel, m)
  {
    hide CallFunc, NewFrame, Throwing, Returned, Goes, Lives;
    m := 1;
    var s := At(k2, 0, NewFrame(J.ch, ix, NoUpvals, args, 0).regs, w);
    match CallFunc(J.P, ix, args, w, fuel)
    case Val(v, w2) =>
      m :| m >= 1 && Goes(J, s, m, Returned(J, k2, w2, v));
      ReturnTo(J, k2, k, ip, regs, w2, v);
    case Fails(msg, w2) =>
      var regs3;
      m, regs3 :| m >= 1 && Goes(J, s, m, Throwing(J, k2, regs3, w2, msg));
      ThrowPasses(J, k2, regs3, w2, msg, k, ip, regs);
    case Timeout(_) =>
  }

  lemma {:induction false} CalleeCorrect(J: Job, k: Ctl, ip: int, regs: Regs, w: World, dest: Byte, ix: nat,
    ups: Upvals, vs: seq<Value>, live: set<int>, fuel: nat)
    returns (n: nat, regs': Regs)
    requires JobOk(J) && CallsOk(J, fuel) && ix < |J.ch.protos| && fuel > 0
    requires Goes(J, At(k, ip, regs, w), 1, At(CalleeCtl(k, ip + 1, regs, ix, ups, dest), 0,
      NewFrame(J.ch, ix, NoUpvals, vs, 0).regs, w))
    ensures Ends(J, At(k, ip, regs, w), k, ip + 1, dest, live - {dest}, regs, CallFunc(J.P, ix, vs, w, fuel - 1), fuel,
      true, n, regs')
  {
    hide CallFunc, NewFrame, CallEnds, NativeEnds, Ends;
    var s := At(k, ip, regs, w);
    var k2 := CalleeCtl(k, ip + 1, regs, ix, ups, dest);
    var s2 := At(k2, 0, NewFrame(J.ch, ix, NoUpvals, vs, 0).regs, w);
    assert CallEnds(J, k2, ix, vs, w, fuel - 1);
    hide CallsOk, JobOk, Goes, At;
    var m := CallGives(J, k2, k, ip + 1, regs, w, ix, vs, dest, fuel - 1);
    n, regs' := NativeWrap(J, s, s2, k, ip + 1, regs, w, dest, live, CallFunc(J.P, ix, vs, w, fuel - 1), fuel, m, ip);
  }

  // ---- lists of operands ----

  predicate InRun(q: int, base: int, n: nat) { base <= q < base + n }

  function RunSet(base: int, n: nat): set<int> { set q: int | base <= q < base + n && InRun(q, base, n) }

  ghost predicate FreeOfLocals(st: CS, base: int, n: nat) { forall q :: base <= q < base + n ==> NoLocal(st, q) }

  ghost predicate ListEnds(J: Job, s: State, k: Ctl, ip': int, base: nat, cnt: nat, keep: set<int>, regs: Regs,
    r: ListResult, fuel: nat, n: nat, regs': Regs)
  {
    match r
    case Vals(vs, w') => Reached(J, s, n, k, ip', keep, regs, regs', w') && Range(regs', base, cnt) == vs
    case ListFails(msg, w') => n >= 1 && Goes(J, s, n, Throwing(J, k, regs', w', msg)) && Same(keep, regs, regs')
    case ListTimeout(w') => Lives(J, s, fuel, w')
  }

  lemma {:induction false} ListCorrect(J: Job, k: Ctl, st: CS, st': CS, E: Scope, regs: Regs, w: World, live: set<int>,
    names: set<Text>, es: seq<Expr>, base: nat, fuel: nat)
    returns (n: nat, regs1: Regs)
    requires Base(J, k, st, st', E, regs, live, names) && MentionsList(es) <= names && CallsOk(J, fuel)
    requires RunSet(base, |es|) <= live && FreeOfLocals(st, base, |es|) && base + |es| <= 0x100
    requires Grows(CompileList(J.P.funcs, st, es, base), st')
    ensures var st2 := CompileList(J.P.funcs, st, es, base);
      var r := EvalList(J.P, E, es, w, fuel);
      && ListEnds(J, At(k, |st.code|, regs, w), k, |st2.code|, base, |es|, live - RunSet(base, |es|), regs, r, fuel, n,
        regs1)
      && Shape(st, st2)
      && (r.Vals? ==> Base(J, k, st2, st', E, regs1, live, names))
    decreases es, 0
  {
    hide *;
    var s := At(k, |st.code|, regs, w);
    if es == [] {
      n, regs1 := 0, regs;
      ListNil(J, k, st, E, regs, w, live, base, fuel, J.P);
      return;
    }
    var rest := es[1..];
    var st1 := CompileExpr(J.P.funcs, st, es[0], base);
    var st2 := CompileList(J.P.funcs, st1, rest, base + 1);
    ListIs(J.P, E, st, es, base, w, fuel);
    ListGrows(J.P.funcs, st, es, base, st');
    RunSplit(st, base, es, live, names);
    var r := Eval(J.P, E, es[0], w, fuel);
    var m1, regs2 := Into(J, k, st, st', E, regs, w, live, names, base, es[0], fuel);
    if !r.Val? {
      n, regs1 := m1, regs2;
      ListFail1(J, s, k, |st1.code|, |st2.code|, base, |es|, live, regs, r, fuel, Atomic(es[0]), m1, regs2);
      ShapeTrans(st, st1, st2);
      return;
    }
    RunSplitRest(st, st1, base, es);
    ShapeTrans(st, st1, st2);
    var m2, regs3 := ListCorrect(J, k, st1, st', E, regs2, r.w, live, names, rest, base + 1, fuel);
    n, regs1 := m1 + m2, regs3;
    ListCons(J, s, k, |st1.code|, |st2.code|, base, |rest|, live, regs, r, EvalList(J.P, E, rest, r.w, fuel), fuel,
      Atomic(es[0]), m1, regs2, m2, regs3);
  }

  lemma ListNil(J: Job, k: Ctl, st: CS, E: Scope, regs: Regs, w: World, live: set<int>, base: nat, fuel: nat, P: Prog)
    ensures ListEnds(J, At(k, |st.code|, regs, w), k, |CompileList(P.funcs, st, [], base).code|, base, 0,
      live - RunSet(base, 0), regs,
                     EvalList(P, E, [], w, fuel), fuel, 0, regs)
    ensures CompileList(P.funcs, st, [], base) == st && Shape(st, st)
  {
    ReachStart(J, k, |st.code|, live - RunSet(base, 0), regs, w);
    hide Goes;
    ShapeList(P.funcs, st, [], base);
  }

  lemma ListIs(P: Prog, E: Scope, st: CS, es: seq<Expr>, base: nat, w: World, fuel: nat)
    requires es != [] && base + |es| <= 0x100
    ensures CompileList(P.funcs, st, es, base) ==
      CompileList(P.funcs, CompileExpr(P.funcs, st, es[0], base), es[1..], base + 1)
    ensures var r := Eval(P, E, es[0], w, fuel);
      EvalList(P, E, es, w, fuel) ==
        if r.Val? then Prepend(r.v, EvalList(P, E, es[1..], r.w, fuel))
        else if r.Fails? then ListFails(r.msg, r.w) else ListTimeout(r.w)
  {
    hide CompileExpr;
    hide Eval;
  }

  function Prepend(v: Value, r: ListResult): (p: ListResult)
    ensures p.Vals? <==> r.Vals?
  {
     if r.Vals? then Vals([v] + r.vs, r.w) else r
  }

  lemma ListGrows(funcs: seq<FuncDecl>, st: CS, es: seq<Expr>, base: nat, st': CS)
    requires es != [] && base + |es| <= 0x100 && Grows(CompileList(funcs, st, es, base), st')
    ensures var st1 := CompileExpr(funcs, st, es[0], base);
      var st2 := CompileList(funcs, st1, es[1..], base + 1);
      Grows(st1, st') && Grows(st2, st') && Shape(st, st1) && Shape(st1, st2)
  {
    hide CompileExpr;
    var st1 := CompileExpr(funcs, st, es[0], base);
    ShapeExpr(funcs, st, es[0], base);
    ShapeList(funcs, st1, es[1..], base + 1);
    assert CompileList(funcs, st, es, base) == CompileList(funcs, st1, es[1..], base + 1);
    hide CompileList;
    hide Inv;
    hide Keeps;
  }

  lemma RunSplit(st: CS, base: nat, es: seq<Expr>, live: set<int>, names: set<Text>)
    requires es != [] && RunSet(base, |es|) <= live && FreeOfLocals(st, base, |es|) && MentionsList(es) <= names
    ensures base in live && NoLocal(st, base) && RunSet(base + 1, |es[1..]|) <= live
    ensures Mentions(es[0]) <= names && MentionsList(es[1..]) <= names
  {
    assert base in RunSet(base, |es|);
    assert RunSet(base + 1, |es[1..]|) <= RunSet(base, |es|);
  }

  lemma RunSplitRest(st: CS, st1: CS, base: nat, es: seq<Expr>)
    requires es != [] && FreeOfLocals(st, base, |es|) && st1.locals == st.locals
    ensures FreeOfLocals(st1, base + 1, |es[1..]|)
  {
    forall q | base + 1 <= q < base + 1 + |es[1..]|
      ensures NoLocal(st1, q)
    {
      NoLocalSame(st, st1, q);
    }
  }

  lemma ListFail1(J: Job, s: State, k: Ctl, ip: int, ip2: int, base: nat, cnt: nat, live: set<int>, regs: Regs,
    r: Result, fuel: nat, at: bool, n: nat, regs1: Regs)
    requires !r.Val? && Ends(J, s, k, ip, base, live - {base as int}, regs, r, fuel, at, n, regs1) && cnt >= 1
    ensures ListEnds(J, s, k, ip2, base, cnt, live - RunSet(base, cnt), regs, if r.Fails? then ListFails(r.msg, r.w)
      else ListTimeout(r.w), fuel, n, regs1)
  {
    hide Goes;
    assert base in RunSet(base, cnt);
  }

  lemma ListCons(J: Job, s: State, k: Ctl, ip1: int, ip2: int, base: nat, cnt: nat, live: set<int>, regs: Regs,
    r: Result, rs: ListResult, fuel: nat, at: bool, m1: nat, regs2: Regs, m2: nat, regs3: Regs)
    requires r.Val? && Ends(J, s, k, ip1, base, live - {base as int}, regs, r, fuel, at, m1, regs2) && base in live
    requires ListEnds(J, At(k, ip1, regs2, r.w), k, ip2, base + 1, cnt, live - RunSet(base + 1, cnt), regs2, rs, fuel,
      m2, regs3)
    ensures ListEnds(J, s, k, ip2, base, cnt + 1, live - RunSet(base, cnt + 1), regs, Prepend(r.v, rs), fuel, m1 + m2,
      regs3)
  {
    hide Goes;
    hide Lives;
    assert base in RunSet(base, cnt + 1) && RunSet(base + 1, cnt) <= RunSet(base, cnt + 1);
    assert base !in RunSet(base + 1, cnt);
    match rs
    case Vals(vs, w') =>
      GoesTrans(J, s, m1, At(k, ip1, regs2, r.w), m2, At(k, ip2, regs3, w'));
      assert Get(regs3, base) == r.v;
      RangeCons(regs3, base, cnt);
    case ListFails(msg, w') => GoesTrans(J, s, m1, At(k, ip1, regs2, r.w), m2, Throwing(J, k, regs3, w', msg));
    case ListTimeout(w') => LivesAfter(J, s, m1, At(k, ip1, regs2, r.w), fuel, w');
  }

  lemma RangeCons(regs: Regs, base: nat, cnt: nat)
    ensures Range(regs, base, cnt + 1) == [Get(regs, base)] + Range(regs, base + 1, cnt)
  {
  }

  lemma ListFailEnds(J: Job, s: State, n: nat, k: Ctl, ip: int, live: set<int>, regs0: Regs, regs: Regs, w: World,
    ip1: int, base: nat, cnt: nat, keep: set<int>, r: ListResult, fuel: nat, m: nat, regs1: Regs, ip2: int, dest: int)
    requires Reached(J, s, n, k, ip, live, regs0, regs, w) && dest in live && live <= keep && !r.Vals?
    requires ListEnds(J, At(k, ip, regs, w), k, ip1, base, cnt, keep, regs, r, fuel, m, regs1)
    ensures Ends(J, s, k, ip2, dest, live - {dest}, regs0, if r.ListFails? then Fails(r.msg, r.w)
      else Timeout(r.w), fuel, true, n + m, regs1)
  {
    hide Goes;
    hide Lives;
    if r.ListFails? {
      GoesTrans(J, s, n, At(k, ip, regs, w), m, Throwing(J, k, regs1, r.w, r.msg));
    } else {
      LivesAfter(J, s, n, At(k, ip, regs, w), fuel, r.w);
    }
  }

  lemma ListReached(J: Job, s: State, n: nat, k: Ctl, ip: int, live: set<int>, regs0: Regs, regs: Regs, w: World,
    ip1: int, base: nat, cnt: nat, keep: set<int>, r: ListResult, fuel: nat, m: nat, regs1: Regs)
    requires Reached(J, s, n, k, ip, live, regs0, regs, w) && live <= keep && r.Vals?
    requires ListEnds(J, At(k, ip, regs, w), k, ip1, base, cnt, keep, regs, r, fuel, m, regs1)
    ensures Reached(J, s, n + m, k, ip1, live, regs0, regs1, r.w) && Range(regs1, base, cnt) == r.vs
    ensures forall q :: q in keep ==> Get(regs1, q) == Get(regs, q)
  {
    hide Goes;
    GoesTrans(J, s, n, At(k, ip, regs, w), m, At(k, ip1, regs1, r.w));
  }

  /** A run of fresh registers becomes live. */
  lemma RunBase(J: Job, k: Ctl, st: CS, st': CS, E: Scope, regs: Regs, live: set<int>, names: set<Text>, st1: CS,
    base: Byte, n: nat)
    requires Base(J, k, st, st', E, regs, live, names) && Grows(st1, st') && st1.code == st.code
      && st1.locals == st.locals
    requires Grows(st, st1) && Inv(st1) && Keeps(st, st1) && FreshRun(st, st1, base, n)
    ensures Base(J, k, st1, st', E, regs, live + RunSet(base, n), names)
    ensures FreeOfLocals(st1, base, n) && (forall q :: q in live ==> q !in RunSet(base, n))
    ensures live <= (live + RunSet(base, n)) - RunSet(base, n)
  {
    hide Inv;
    WithinGrows(st1, st', st');
    BaseSub(J, k, st, st', E, regs, live, names, st1, st', regs, live + RunSet(base, n), names);
    forall q | base <= q < base + n
      ensures NoLocal(st1, q)
    {
      assert q !in st.locals.Values;
    }
    assert live <= (live + RunSet(base, n)) - RunSet(base, n);
  }

  // ---- call expressions ----

  lemma CallCode(funcs: seq<FuncDecl>, st: CS, e: Expr, dest: Byte)
    requires e.Call?
    ensures var n := |e.args|;
      var base := st.next % 0x100;
      var st1 := NoteRegs(Reserve(st, n + 1));
      var st2 := CompileExpr(funcs, st1, e.fun, base);
      var st3 := CompileList(funcs, st2, e.args, base + 1);
      var st' := CompileExpr(funcs, st, e, dest);
      && st'.code == st3.code + [MakeABC(CALL, dest, base, n % 0x100)] && |st'.code| == |st3.code| + 1
      && Grows(st, st1) && Grows(st1, st') && Grows(st2, st') && Grows(st3, st') && st1.code == st.code
        && st1.locals == st.locals
      && |st.code| <= |st3.code| && st2.locals == st1.locals
      && (Inv(st) && Fine(st') ==> Inv(st1) && Keeps(st, st1) && FreshRun(st, st1, base, n + 1) && base + n + 1 <= 254)
    ensures Mentions(e.fun) <= Mentions(e) && MentionsList(e.args) <= Mentions(e)
  {
    hide FreeRun;
    var n := |e.args|;
    var base := st.next % 0x100;
    var st1 := NoteRegs(Reserve(st, n + 1));
    var st2 := CompileExpr(funcs, st1, e.fun, base);
    var st3 := CompileList(funcs, st2, e.args, base + 1);
    var st4 := Emit(st3, MakeABC(CALL, dest, base, n % 0x100));
    ShapeReserveRun(st, n + 1);
    assert CompileCall(funcs, st, e, dest) == FreeRun(st4, base, n + 1) by { hide CompileExpr; hide CompileList; }
    assert CompileExpr(funcs, st, e, dest) == CompileCall(funcs, st, e, dest) by { hide CompileCall; }
    hide CompileCall;
    ShapeExpr(funcs, st1, e.fun, base);
    hide CompileExpr;
    ShapeList(funcs, st2, e.args, base + 1);
    hide CompileList;
    FreeRunCode(st4, base, n + 1);
    hide Reserve;
    hide NoteRegs;
    hide Inv;
    hide Keeps;
    hide FreshRun;
  }

  lemma CallMeaning(P: Prog, E: Scope, e: Expr, w: World, fuel: nat)
    requires e.Call?
    ensures var r := Eval(P, E, e.fun, w, fuel);
      Eval(P, E, e, w, fuel) ==
        if !r.Val? then r else
        var rs := EvalList(P, E, e.args, r.w, fuel);
        if rs.Vals? then Apply(P, r.v, rs.vs, rs.w, fuel) else if rs.ListFails? then Fails(rs.msg, rs.w)
        else Timeout(rs.w)
    ensures Atomic(e)
  {
    hide Apply;
    hide Ask;
    hide Truthy;
  }

  lemma {:induction false} CallCorrect(J: Job, k: Ctl, st: CS, e: Expr, dest: Byte, E: Scope, regs: Regs, w: World,
    live: set<int>, fuel: nat)
    returns (n: nat, regs': Regs)
    requires e.Call? && Base(J, k, st, CompileExpr(J.P.funcs, st, e, dest), E, regs, live, Mentions(e))
    requires dest in live && CallsOk(J, fuel)
    ensures Ends(J, At(k, |st.code|, regs, w), k, |CompileExpr(J.P.funcs, st, e, dest).code|, dest, live - {dest}, regs,
                 Eval(J.P, E, e, w, fuel), fuel, Atomic(e), n, regs')
    decreases e, 1
  {
    hide *;
    var st' := CompileExpr(J.P.funcs, st, e, dest);
    var cnt := |e.args|;
    var base := st.next % 0x100;
    var st1 := NoteRegs(Reserve(st, cnt + 1));
    var st2 := CompileExpr(J.P.funcs, st1, e.fun, base);
    var st3 := CompileList(J.P.funcs, st2, e.args, base + 1);
    CallCode(J.P.funcs, st, e, dest);
    CallMeaning(J.P, E, e, w, fuel);
    BaseHosted(J, k, st, st', E, regs, live, Mentions(e));
    RunBase(J, k, st, st', E, regs, live, Mentions(e), st1, base, cnt + 1);
    var live1 := live + RunSet(base, cnt + 1);
    RunFacts(st1, st2, live, base, cnt);
    var s := At(k, |st.code|, regs, w);
    var r := Eval(J.P, E, e.fun, w, fuel);
    ReachStart(J, k, |st.code|, live, regs, w);
    var m1, regs1 := Into(J, k, st1, st', E, regs, w, live1, Mentions(e), base, e.fun, fuel);
    if !r.Val? {
      n, regs' := m1, regs1;
      ReachFail(J, s, 0, k, |st.code|, live, regs, regs, w, |st2.code|, base, live1 - {base as int}, r, fuel,
        Atomic(e.fun), m1, regs1, |st'.code|, dest, true);
      return;
    }
    ReachNext(J, s, 0, k, |st.code|, live, regs, regs, w, |st2.code|, base, live1 - {base as int}, r, fuel,
      Atomic(e.fun), m1, regs1);
    var rs := EvalList(J.P, E, e.args, r.w, fuel);
    var m2, regs2 := ListCorrect(J, k, st2, st', E, regs1, r.w, live1, Mentions(e), e.args, base + 1, fuel);
    var keep2 := live1 - RunSet(base + 1, cnt);
    if !rs.Vals? {
      n, regs' := m1 + m2, regs2;
      ListFailEnds(J, s, m1, k, |st2.code|, live, regs, regs1, r.w, |st3.code|, base + 1, cnt, keep2, rs, fuel, m2,
        regs2, |st'.code|, dest);
      return;
    }
    ListReached(J, s, m1, k, |st2.code|, live, regs, regs1, r.w, |st3.code|, base + 1, cnt, keep2, rs, fuel, m2, regs2);
    FetchAt(J, k, st, st', |st3.code|, MakeABC(CALL, dest, base, cnt));
    var m3, regs3 := ApplyCorrect(J, k, |st3.code|, regs2, rs.w, dest, base, cnt, r.v, rs.vs, live, fuel);
    n, regs' := m1 + m2 + m3, regs3;
    ReachEnd(J, s, m1 + m2, k, |st3.code|, live, regs, regs2, rs.w, |st'.code|, dest, live - {dest},
      Apply(J.P, r.v, rs.vs, rs.w, fuel), fuel, true, m3, regs3);
  }

  lemma RunFacts(st1: CS, st2: CS, live: set<int>, base: Byte, cnt: nat)
    requires FreeOfLocals(st1, base, cnt + 1) && st2.locals == st1.locals
    requires forall q :: q in live ==> q !in RunSet(base, cnt + 1)
    ensures var live1 := live + RunSet(base, cnt + 1);
      && (base as int) in live1 && NoLocal(st1, base) && RunSet(base + 1, cnt) <= live1
        && FreeOfLocals(st2, base + 1, cnt)
      && live <= live1 - {base as int} && live <= live1 - RunSet(base + 1, cnt)
        && (base as int) in live1 - RunSet(base + 1, cnt)
  {
    assert (base as int) in RunSet(base, cnt + 1);
    assert RunSet(base + 1, cnt) <= RunSet(base, cnt + 1);
    assert (base as int) !in RunSet(base + 1, cnt);
    forall q | base + 1 <= q < base + 1 + cnt
      ensures NoLocal(st2, q)
    {
      NoLocalSame(st1, st2, q);
    }
  }

  // ---- array literals ----

  lemma ArrayCode(funcs: seq<FuncDecl>, st: CS, e: Expr, dest: Byte)
    requires e.ArrayLit? && e.elts != []
    ensures var n := |e.elts|;
      var (st1, base) := ArrayRegs(st, n);
      var st2 := CompileList(funcs, st1, e.elts, base);
      var st' := CompileExpr(funcs, st, e, dest);
      && st'.code == st2.code + [MakeABC(NEWARR, dest, base, n % 0x100)] && |st'.code| == |st2.code| + 1
      && Grows(st, st1) && Grows(st1, st') && Grows(st2, st') && st1.code == st.code && st1.locals == st.locals
        && |st.code| <= |st2.code|
      && (Inv(st) && Fine(st') ==> Inv(st1) && Keeps(st, st1) && FreshRun(st, st1, base, n) && base + n <= 254)
    ensures MentionsList(e.elts) <= Mentions(e)
  {
    hide FreeRun;
    hide ArrayRegs;
    var n := |e.elts|;
    var (st1, base) := ArrayRegs(st, n);
    var st2 := CompileList(funcs, st1, e.elts, base);
    var st4 := Emit(st2, MakeABC(NEWARR, dest, base, n % 0x100));
    ShapeArrayRegs(st, n);
    assert CompileArray(funcs, st, e, dest) == FreeRun(st4, base, n) by { hide CompileExpr; hide CompileList; }
    assert CompileExpr(funcs, st, e, dest) == CompileArray(funcs, st, e, dest) by { hide CompileArray; }
    hide CompileArray;
    hide CompileExpr;
    ShapeList(funcs, st1, e.elts, base);
    hide CompileList;
    FreeRunCode(st4, base, n);
    hide Inv;
    hide Keeps;
    hide FreshRun;
  }

  lemma ArrayMeaning(P: Prog, E: Scope, e: Expr, w: World, fuel: nat)
    requires e.ArrayLit?
    ensures var rs := EvalList(P, E, e.elts, w, fuel);
      Eval(P, E, e, w, fuel) ==
        if rs.Vals? then Ask(P, NEWARR, rs.vs, rs.w) else if rs.ListFails? then Fails(rs.msg, rs.w)
        else Timeout(rs.w)
    ensures Atomic(e)
    ensures e.elts == [] ==> EvalList(P, E, e.elts, w, fuel) == Vals([], w)
  {
    hide Ask;
    hide Truthy;
  }

  lemma ArrayOperands(regs: Regs, dest: Byte, base: Byte, n: Byte)
    ensures var ins := MakeABC(NEWARR, dest, base, n);
      IsPrim(ins.op) && Operands(regs, ins) == Range(regs, base, n) && ins.op == NEWARR && ins.a == dest
  {
    hide Range;
  }

  lemma {:induction false} ArrayCorrect(J: Job, k: Ctl, st: CS, e: Expr, dest: Byte, E: Scope, regs: Regs, w: World,
    live: set<int>, fuel: nat)
    returns (n: nat, regs': Regs)
    requires e.ArrayLit? && e.elts != [] && Base(J, k, st, CompileExpr(J.P.funcs, st, e, dest), E, regs, live,
      Mentions(e))
    requires dest in live && CallsOk(J, fuel)
    ensures Ends(J, At(k, |st.code|, regs, w), k, |CompileExpr(J.P.funcs, st, e, dest).code|, dest, live - {dest}, regs,
                 Eval(J.P, E, e, w, fuel), fuel, Atomic(e), n, regs')
    decreases e, 1
  {
    hide *;
    var st' := CompileExpr(J.P.funcs, st, e, dest);
    var cnt := |e.elts|;
    var (st1, base) := ArrayRegs(st, cnt);
    var st2 := CompileList(J.P.funcs, st1, e.elts, base);
    ArrayCode(J.P.funcs, st, e, dest);
    ArrayMeaning(J.P, E, e, w, fuel);
    BaseHosted(J, k, st, st', E, regs, live, Mentions(e));
    RunBase(J, k, st, st', E, regs, live, Mentions(e), st1, base, cnt);
    var live1 := live + RunSet(base, cnt);
    var s := At(k, |st.code|, regs, w);
    ReachStart(J, k, |st.code|, live, regs, w);
    var rs := EvalList(J.P, E, e.elts, w, fuel);
    var m1, regs1 := ListCorrect(J, k, st1, st', E, regs, w, live1, Mentions(e), e.elts, base, fuel);
    var keep1 := live1 - RunSet(base, cnt);
    if !rs.Vals? {
      n, regs' := m1, regs1;
      ListFailEnds(J, s, 0, k, |st.code|, live, regs, regs, w, |st2.code|, base, cnt, keep1, rs, fuel, m1, regs1,
        |st'.code|, dest);
      return;
    }
    ListReached(J, s, 0, k, |st.code|, live, regs, regs, w, |st2.code|, base, cnt, keep1, rs, fuel, m1, regs1);
    ArrayOperands(regs1, dest, base, cnt);
    n, regs' := PrimLast(J, k, st, st', s, m1, |st2.code|, MakeABC(NEWARR, dest, base, cnt), rs.vs, regs, regs1, rs.w,
      live, fuel);
  }

  lemma EmptyArrayCorrect(J: Job, k: Ctl, st: CS, e: Expr, dest: Byte, E: Scope, regs: Regs, w: World, live: set<int>,
    fuel: nat)
    returns (n: nat, regs': Regs)
    requires e.ArrayLit? && e.elts == [] && Base(J, k, st, CompileExpr(J.P.funcs, st, e, dest), E, regs, live,
      Mentions(e))
    requires dest in live
    ensures Ends(J, At(k, |st.code|, regs, w), k, |CompileExpr(J.P.funcs, st, e, dest).code|, dest, live - {dest}, regs,
                 Eval(J.P, E, e, w, fuel), fuel, Atomic(e), n, regs')
  {
    ArrayMeaning(J.P, E, e, w, fuel);
    EmptyArrayIs(J.P.funcs, st, e, dest);
    ArrayOperands(regs, dest, 0, 0);
    assert Range(regs, 0, 0) == [];
    hide *;
    var st' := CompileExpr(J.P.funcs, st, e, dest);
    BaseHosted(J, k, st, st', E, regs, live, Mentions(e));
    ReachStart(J, k, |st.code|, live, regs, w);
    n, regs' := PrimLast(J, k, st, st', At(k, |st.code|, regs, w), 0, |st.code|, MakeABC(NEWARR, dest, 0, 0), [], regs,
      regs, w, live, fuel);
  }

  lemma EmptyArrayIs(funcs: seq<FuncDecl>, st: CS, e: Expr, dest: Byte)
    requires e.ArrayLit? && e.elts == []
    ensures CompileExpr(funcs, st, e, dest).code == st.code + [MakeABC(NEWARR, dest, 0, 0)]
    ensures |CompileExpr(funcs, st, e, dest).code| == |st.code| + 1
  {
  }

  // ---- one operand after another ----

  /** An operand that fails or times out, after what was reached before it. */
  ghost predicate Failed(J: Job, s: State, k: Ctl, live: set<int>, regs0: Regs, r: Result, fuel: nat, n: nat,
    regs1: Regs) {
    match r
    case Val(_, _) => false
    case Fails(msg, w') => n >= 1 && Goes(J, s, n, Throwing(J, k, regs1, w', msg)) && Same(live, regs0, regs1)
    case Timeout(w') => Lives(J, s, fuel, w')
  }

  lemma FailedEnds(J: Job, s: State, k: Ctl, live: set<int>, regs0: Regs, r: Result, fuel: nat, n: nat, regs1: Regs,
    ip: int, dest: int, atomic: bool)
    requires Failed(J, s, k, live, regs0, r, fuel, n, regs1) && dest in live
    ensures Ends(J, s, k, ip, dest, live - {dest}, regs0, r, fuel, atomic, n, regs1)
  {
  }

  lemma FailedIntro(J: Job, s: State, n: nat, k: Ctl, ip: int, live: set<int>, regs0: Regs, regs: Regs, w: World,
    ip1: int, tmp: int, keep: set<int>, r: Result, fuel: nat, at: bool, m: nat, regs1: Regs)
    requires Reached(J, s, n, k, ip, live, regs0, regs, w)
    requires Ends(J, At(k, ip, regs, w), k, ip1, tmp, keep, regs, r, fuel, at, m, regs1) && !r.Val? && live <= keep
    ensures Failed(J, s, k, live, regs0, r, fuel, n + m, regs1)
  {
    hide Goes;
    hide Lives;
    if r.Fails? {
      GoesTrans(J, s, n, At(k, ip, regs, w), m, Throwing(J, k, regs1, r.w, r.msg));
    } else {
      LivesAfter(J, s, n, At(k, ip, regs, w), fuel, r.w);
    }
  }

  /** Allocate a register, evaluate an operand into it, go on. */
  lemma {:induction false} Operand(J: Job, k: Ctl, st: CS, st': CS, E: Scope, s: State, n: nat, live0: set<int>,
    regs0: Regs, regs: Regs, w: World, live: set<int>, names: set<Text>, x: Expr, fuel: nat)
    returns (m: nat, regs1: Regs)
    requires Base(J, k, st, st', E, regs, live, names) && Mentions(x) <= names && CallsOk(J, fuel)
    requires Reached(J, s, n, k, |st.code|, live0, regs0, regs, w) && live0 <= live
    requires var (st1, tmp) := Alloc(st); Grows(st1, st') && Grows(CompileExpr(J.P.funcs, st1, x, tmp), st')
    ensures var (st1, tmp) := Alloc(st);
      var st2 := CompileExpr(J.P.funcs, st1, x, tmp);
      var r := Eval(J.P, E, x, w, fuel);
      && (r.Val? ==>
        && Reached(J, s, m, k, |st2.code|, live0, regs0, regs1, r.w) && Get(regs1, tmp) == r.v
          && Same(live, regs, regs1)
        && Base(J, k, st2, st', E, regs1, live + {tmp}, names))
      && (!r.Val? ==> Failed(J, s, k, live0, regs0, r, fuel, m, regs1))
      && tmp !in live && NoLocal(st2, tmp) && st2.locals == st.locals
    decreases x, 4
  {
    hide *;
    var (st1, tmp) := Alloc(st);
    var st2 := CompileExpr(J.P.funcs, st1, x, tmp);
    var r := Eval(J.P, E, x, w, fuel);
    AllocBase(J, k, st, st', E, regs, live, names);
    var n1, regs2 := Into(J, k, st1, st', E, regs, w, live + {tmp}, names, tmp, x, fuel);
    m, regs1 := n + n1, regs2;
    NoLocalSame(st1, st2, tmp);
    if r.Val? {
      ReachNext(J, s, n, k, |st.code|, live0, regs0, regs, w, |st2.code|, tmp, live, r, fuel, Atomic(x), n1, regs1);
      SameIntro(live, regs, regs1);
    } else {
      FailedIntro(J, s, n, k, |st.code|, live0, regs0, regs, w, |st2.code|, tmp, live, r, fuel, Atomic(x), n1, regs1);
    }
  }

  lemma SameIntro(keep: set<int>, regs: Regs, regs1: Regs)
    requires forall q :: q in keep ==> Get(regs1, q) == Get(regs, q)
    ensures Same(keep, regs, regs1)
  {
  }

  lemma SameElim(keep: set<int>, regs: Regs, regs1: Regs)
    requires Same(keep, regs, regs1)
    ensures forall q :: q in keep ==> Get(regs1, q) == Get(regs, q)
  {
  }

  // ---- index expressions ----

  lemma IndexCode(funcs: seq<FuncDecl>, st: CS, e: Expr, dest: Byte)
    requires e.Index?
    ensures var (st1, obj) := Alloc(st);
      var st2 := CompileExpr(funcs, st1, e.obj, obj);
      var (st3, idx) := Alloc(st2);
      var st4 := CompileExpr(funcs, st3, e.idx, idx);
      var st' := CompileExpr(funcs, st, e, dest);
      && st'.code == st4.code + [MakeABC(GETI, dest, obj, idx)] && |st'.code| == |st4.code| + 1
      && |st.code| <= |st4.code| && Grows(st1, st') && Grows(st2, st') && Grows(st3, st') && Grows(st4, st')
    ensures Mentions(e.obj) <= Mentions(e) && Mentions(e.idx) <= Mentions(e)
  {
    hide Alloc;
    hide Free;
    var (st1, obj) := Alloc(st);
    var st2 := CompileExpr(funcs, st1, e.obj, obj);
    var (st3, idx) := Alloc(st2);
    var st4 := CompileExpr(funcs, st3, e.idx, idx);
    var st5 := Emit(st4, MakeABC(GETI, dest, obj, idx));
    assert CompileExpr(funcs, st, e, dest) == Free(Free(st5, obj), idx);
    hide CompileExpr;
    ShapeAlloc(st);
    ShapeAlloc(st2);
    ShapeExpr(funcs, st1, e.obj, obj);
    ShapeExpr(funcs, st3, e.idx, idx);
    ShapeFree(st5, obj);
    ShapeFree(Free(st5, obj), idx);
    hide Inv;
    hide Keeps;
  }

  lemma IndexMeaning(P: Prog, E: Scope, e: Expr, w: World, fuel: nat)
    requires e.Index?
    ensures var r := Eval(P, E, e.obj, w, fuel);
      Eval(P, E, e, w, fuel) ==
        if !r.Val? then r else
        var q := Eval(P, E, e.idx, r.w, fuel);
        if !q.Val? then q else Ask(P, GETI, [r.v, q.v], q.w)
    ensures Atomic(e)
  {
    hide Ask;
    hide Truthy;
  }

  lemma PairOperands(regs: Regs, op: Byte, a: Byte, b: Byte, c: Byte)
    requires op == GETI || op == EQ
    ensures var ins := MakeABC(op, a, b, c);
      IsPrim(ins.op) && Operands(regs, ins) == [Get(regs, b), Get(regs, c)] && ins.op == op && ins.a == a
  {
  }

  lemma StoreOperands(regs: Regs, a: Byte, b: Byte, c: Byte)
    ensures var ins := MakeABC(SETI, a, b, c);
      IsPrim(ins.op) && Operands(regs, ins) == [Get(regs, a), Get(regs, b), Get(regs, c)] && ins.op == SETI
        && ins.a == a
  {
  }

  lemma {:induction false} IndexCorrect(J: Job, k: Ctl, st: CS, e: Expr, dest: Byte, E: Scope, regs: Regs, w: World,
    live: set<int>, fuel: nat)
    returns (n: nat, regs': Regs)
    requires e.Index? && Base(J, k, st, CompileExpr(J.P.funcs, st, e, dest), E, regs, live, Mentions(e))
    requires dest in live && CallsOk(J, fuel)
    ensures Ends(J, At(k, |st.code|, regs, w), k, |CompileExpr(J.P.funcs, st, e, dest).code|, dest, live - {dest}, regs,
                 Eval(J.P, E, e, w, fuel), fuel, Atomic(e), n, regs')
    decreases e, 1
  {
    hide *;
    var st' := CompileExpr(J.P.funcs, st, e, dest);
    var (st1, obj) := Alloc(st);
    var st2 := CompileExpr(J.P.funcs, st1, e.obj, obj);
    var (st3, idx) := Alloc(st2);
    var st4 := CompileExpr(J.P.funcs, st3, e.idx, idx);
    IndexCode(J.P.funcs, st, e, dest);
    IndexMeaning(J.P, E, e, w, fuel);
    BaseHosted(J, k, st, st', E, regs, live, Mentions(e));
    var s := At(k, |st.code|, regs, w);
    var r := Eval(J.P, E, e.obj, w, fuel);
    ReachStart(J, k, |st.code|, live, regs, w);
    var m1, regs1 := Operand(J, k, st, st', E, s, 0, live, regs, regs, w, live, Mentions(e), e.obj, fuel);
    if !r.Val? {
      n, regs' := m1, regs1;
      FailedEnds(J, s, k, live, regs, r, fuel, m1, regs1, |st'.code|, dest, true);
      return;
    }
    var q := Eval(J.P, E, e.idx, r.w, fuel);
    var m2, regs2 := Operand(J, k, st2, st', E, s, m1, live, regs, regs1, r.w, live + {obj}, Mentions(e), e.idx, fuel);
    if !q.Val? {
      n, regs' := m2, regs2;
      FailedEnds(J, s, k, live, regs, q, fuel, m2, regs2, |st'.code|, dest, true);
      return;
    }
    SameElim(live + {obj}, regs1, regs2);
    PairOperands(regs2, GETI, dest, obj, idx);
    n, regs' := PrimLast(J, k, st, st', s, m2, |st4.code|, MakeABC(GETI, dest, obj, idx), [r.v, q.v], regs, regs2, q.w,
      live, fuel);
  }

  // ---- fields ----

  /** Within the first 256 constants a field is fetched by one instruction. */
  lemma GetFieldIs(st: CS, name: Text, dest: Byte, obj: Byte)
    requires Fine(EmitGetField(st, name, dest, obj))
    ensures var (st1, ki) := Intern(st, CStr(name));
      var st' := EmitGetField(st, name, dest, obj);
      && ki <= 255 && st'.code == st.code + [MakeABC(GETK, dest, obj, ki)] && Grows(st1, st')
  {
    var (st1, ki) := Intern(st, CStr(name));
    ShapeIntern(st, CStr(name));
    assert st1.code == st.code;
    hide Intern;
    if ki > 255 {
      WideGrows(NoteKey(st1, ki), ki, (kr: Byte) => MakeABC(GETI, dest, obj, kr));
    }
  }

  /** The longer way round does not lower what was noted. */
  lemma WideGrows(st: CS, ki: nat, ins: Byte -> Instr)
    ensures var (st2, kr) := Alloc(st); Grows(st, Free(Emit(Emit(st2, MakeABx(LOADK, kr, ki % 0x1_0000)), ins(kr)), kr))
  {
    hide MakeABx;
  }

  lemma FineBefore(J: Job, k: Ctl, st: CS, st': CS, E: Scope, regs: Regs, live: set<int>, names: set<Text>, a: CS)
    requires Base(J, k, st, st', E, regs, live, names) && Grows(a, st')
    ensures Fine(a)
  {
  }

  lemma PoolFacts(J: Job, k: Ctl, st: CS, st': CS, E: Scope, regs: Regs, live: set<int>, names: set<Text>, a: CS)
    requires Base(J, k, st, st', E, regs, live, names) && Grows(a, st')
    ensures a.pool <= J.ch.consts && |J.ch.consts| <= 0x1_0000
  {
  }

  lemma GrowsTrans(a: CS, b: CS, c: CS)
    requires Grows(a, b) && Grows(b, c)
    ensures Grows(a, c)
  {
  }

  lemma CodeStays(a: CS, b: CS, i: int)
    requires Grows(a, b) && 0 <= i < |a.code|
    ensures |a.code| <= |b.code| && b.code[i] == a.code[i]
  {
  }

  /** Moving the setting to the state right after a step that emits no code. */
  lemma BaseStep(J: Job, k: Ctl, st: CS, st': CS, E: Scope, regs: Regs, live: set<int>, names: set<Text>, a: CS)
    requires Base(J, k, st, st', E, regs, live, names) && Shape(st, a) && Grows(a, st')
    ensures Base(J, k, a, st', E, regs, live, names)
  {
    assert Inv(a) && Keeps(st, a);
    hide Inv;
    WithinGrows(a, st', st');
    BaseSub(J, k, st, st', E, regs, live, names, a, st', regs, live, names);
  }

  lemma {:induction false} GetFieldCorrect(J: Job, k: Ctl, st: CS, st': CS, E: Scope, regs: Regs, w: World,
    live: set<int>, names: set<Text>, name: Text, dest: Byte, obj: Byte, fuel: nat)
    returns (n: nat, regs': Regs)
    requires Base(J, k, st, st', E, regs, live, names) && Grows(EmitGetField(st, name, dest, obj), st') && dest in live
      && obj in live
    ensures Ends(J, At(k, |st.code|, regs, w), k, |EmitGetField(st, name, dest, obj).code|, dest, live - {dest}, regs,
                 GetField(J.P, Get(regs, obj), name, w), fuel, true, n, regs')
  {
    hide *;
    var g := EmitGetField(st, name, dest, obj);
    var (st1, ki) := Intern(st, CStr(name));
    var v := Get(regs, obj);
    FineBefore(J, k, st, st', E, regs, live, names, g);
    GetFieldIs(st, name, dest, obj);
    GrowsTrans(st1, g, st');
    BaseHosted(J, k, st, st', E, regs, live, names);
    PoolFacts(J, k, st, st', E, regs, live, names, st1);
    InternFacts(st, CStr(name), J.ch.consts);
    FieldMeaning(J.P, v, name, w);
    CodeStays(g, st', |st.code|);
    var ins := MakeABC(GETK, dest, obj, ki);
    FetchAt(J, k, st, st', |st.code|, ins);
    KeyIndex(GETK, dest, obj, ki);
    StepKey(J, k, |st.code|, regs, w, ins, name);
    n := 1;
    AskTimeless(J.P, GETK, [v, Str(name)], w);
    regs' := EndsOne(J, k, |st.code|, regs, w, dest, live, Ask(J.P, GETK, [v, Str(name)], w), fuel);
  }

  lemma KeyIndex(op: Byte, a: Byte, b: Byte, c: Byte)
    ensures var ins := MakeABC(op, a, b, c);
      && ins.op == op && ins.a == a && ins.b == b && ins.c == c
      && GETK != SETK && (op == GETK ==> ConstIndex(ins) == c) && (op == SETK ==> ConstIndex(ins) == b)
  {
  }

  lemma AskTimeless(P: Prog, op: Byte, operands: seq<Value>, w: World)
    ensures !Ask(P, op, operands, w).Timeout?
  {
  }

  lemma FieldMeaning(P: Prog, v: Value, name: Text, w: World)
    ensures GetField(P, v, name, w) == Ask(P, GETK, [v, Str(name)], w)
    ensures forall x :: SetField(P, v, name, x, w) == Ask(P, SETK, [v, Str(name), x], w)
  {
    hide Ask;
  }

  lemma FieldCode(funcs: seq<FuncDecl>, st: CS, e: Expr, dest: Byte)
    requires e.Field?
    ensures var (st1, obj) := Alloc(st);
      var st2 := CompileExpr(funcs, st1, e.obj, obj);
      var st3 := EmitGetField(st2, e.field, dest, obj);
      var st' := CompileExpr(funcs, st, e, dest);
      && st'.code == st3.code && |st.code| <= |st2.code| && Grows(st1, st') && Grows(st2, st') && Grows(st3, st')
    ensures Mentions(e.obj) <= Mentions(e)
  {
    hide Alloc;
    hide Free;
    hide EmitGetField;
    var (st1, obj) := Alloc(st);
    var st2 := CompileExpr(funcs, st1, e.obj, obj);
    var st3 := EmitGetField(st2, e.field, dest, obj);
    assert CompileExpr(funcs, st, e, dest) == Free(st3, obj);
    hide CompileExpr;
    ShapeAlloc(st);
    ShapeExpr(funcs, st1, e.obj, obj);
    ShapeGetField(st2, e.field, dest, obj);
    ShapeFree(st3, obj);
    hide Inv;
    hide Keeps;
  }

  lemma FieldEval(P: Prog, E: Scope, e: Expr, w: World, fuel: nat)
    requires e.Field?
    ensures var r := Eval(P, E, e.obj, w, fuel);
      Eval(P, E, e, w, fuel) == if r.Val? then GetField(P, r.v, e.field, r.w) else r
    ensures Atomic(e)
  {
    hide Ask;
    hide Truthy;
    hide GetField;
  }

  lemma {:induction false} FieldCorrect(J: Job, k: Ctl, st: CS, e: Expr, dest: Byte, E: Scope, regs: Regs, w: World,
    live: set<int>, fuel: nat)
    returns (n: nat, regs': Regs)
    requires e.Field? && Base(J, k, st, CompileExpr(J.P.funcs, st, e, dest), E, regs, live, Mentions(e))
    requires dest in live && CallsOk(J, fuel)
    ensures Ends(J, At(k, |st.code|, regs, w), k, |CompileExpr(J.P.funcs, st, e, dest).code|, dest, live - {dest}, regs,
                 Eval(J.P, E, e, w, fuel), fuel, Atomic(e), n, regs')
    decreases e, 1
  {
    hide *;
    var st' := CompileExpr(J.P.funcs, st, e, dest);
    var (st1, obj) := Alloc(st);
    var st2 := CompileExpr(J.P.funcs, st1, e.obj, obj);
    FieldCode(J.P.funcs, st, e, dest);
    FieldEval(J.P, E, e, w, fuel);
    var s := At(k, |st.code|, regs, w);
    var r := Eval(J.P, E, e.obj, w, fuel);
    ReachStart(J, k, |st.code|, live, regs, w);
    var m1, regs1 := Operand(J, k, st, st', E, s, 0, live, regs, regs, w, live, Mentions(e), e.obj, fuel);
    if !r.Val? {
      n, regs' := m1, regs1;
      FailedEnds(J, s, k, live, regs, r, fuel, m1, regs1, |st'.code|, dest, true);
      return;
    }
    var live1 := live + {obj};
    var m2, regs2 := GetFieldCorrect(J, k, st2, st', E, regs1, r.w, live1, Mentions(e), e.field, dest, obj, fuel);
    n, regs' := m1 + m2, regs2;
    EndsLess(J, At(k, |st2.code|, regs1, r.w), k, |st'.code|, dest, live1 - {dest}, live - {dest}, regs1,
             GetField(J.P, r.v, e.field, r.w), fuel, true, m2, regs2);
    ReachEnd(J, s, m1, k, |st2.code|, live, regs, regs1, r.w, |st'.code|, dest, live - {dest},
      GetField(J.P, r.v, e.field, r.w), fuel, true, m2, regs2);
  }

  lemma EndsLess(J: Job, s: State, k: Ctl, ip: int, dest: int, keep: set<int>, keep1: set<int>, regs: Regs, r: Result,
    fuel: nat, at: bool, n: nat, regs': Regs)
    requires Ends(J, s, k, ip, dest, keep, regs, r, fuel, at, n, regs') && keep1 <= keep
    ensures Ends(J, s, k, ip, dest, keep1, regs, r, fuel, at, n, regs')
  {
    hide Goes;
  }

  // ---- storing under a constant key ----

  lemma SetKeyIs(st: CS, ki: nat, obj: Byte, val: Byte)
    requires Fine(EmitSetKey(st, ki, obj, val))
    ensures ki <= 255 && EmitSetKey(st, ki, obj, val).code == st.code + [MakeABC(SETK, obj, ki, val)]
  {
    if ki > 255 {
      WideGrows(NoteKey(st, ki), ki, (kr: Byte) => MakeABC(SETI, obj, kr, val));
    }
  }

  lemma {:induction false} SetKeyCorrect(J: Job, k: Ctl, st: CS, st': CS, E: Scope, regs: Regs, w: World,
    live: set<int>, names: set<Text>, name: Text, ki: nat, obj: Byte, val: Byte, fuel: nat)
    returns (n: nat, regs': Regs)
    requires Base(J, k, st, st', E, regs, live, names) && Grows(EmitSetKey(st, ki, obj, val), st') && obj in live
      && val in live
    requires ki < |J.ch.consts| && J.ch.consts[ki] == CStr(name) && Find(J.ch.consts, CStr(name)) == ki
    ensures Ends(J, At(k, |st.code|, regs, w), k, |EmitSetKey(st, ki, obj, val).code|, obj, live - {obj}, regs,
                 SetField(J.P, Get(regs, obj), name, Get(regs, val), w), fuel, true, n, regs')
  {
    hide *;
    var g := EmitSetKey(st, ki, obj, val);
    var v, x := Get(regs, obj), Get(regs, val);
    FineBefore(J, k, st, st', E, regs, live, names, g);
    SetKeyIs(st, ki, obj, val);
    BaseHosted(J, k, st, st', E, regs, live, names);
    PoolFacts(J, k, st, st', E, regs, live, names, g);
    FieldMeaning(J.P, v, name, w);
    CodeStays(g, st', |st.code|);
    var ins := MakeABC(SETK, obj, ki, val);
    FetchAt(J, k, st, st', |st.code|, ins);
    KeyIndex(SETK, obj, ki, val);
    StepKey(J, k, |st.code|, regs, w, ins, name);
    n := 1;
    AskTimeless(J.P, SETK, [v, Str(name), x], w);
    regs' := EndsOne(J, k, |st.code|, regs, w, obj, live, Ask(J.P, SETK, [v, Str(name), x], w), fuel);
  }

  // ---- map literals ----

  /** While the map is being built in dest, no later entry reads a local kept there. */
  lemma UnreadBase(J: Job, k: Ctl, st: CS, st': CS, E: Scope, regs: Regs, live: set<int>, names: set<Text>, dest: int,
    regs1: Regs)
    requires Base(J, k, st, st', E, regs, live, names) && Unread(st.locals, names, dest)
      && Same(live - {dest}, regs, regs1)
    ensures Base(J, k, st, st', E, regs1, live, names)
  {
    hide Inv;
    hide Held;
  }

  predicate ConstKey(en: Entry) { en.key.Lit? && en.key.lit.LStr? }

  function KeyName(en: Entry): Text
    requires ConstKey(en)
  {
    en.key.lit.s
  }

  lemma KeyEntryCode(funcs: seq<FuncDecl>, st: CS, en: Entry, dest: Byte)
    requires ConstKey(en)
    ensures var (st1, ki) := Intern(st, CStr(KeyName(en)));
      var (st2, vr) := Alloc(st1);
      var st3 := CompileExpr(funcs, st2, en.val, vr);
      var st4 := EmitSetKey(st3, ki, dest, vr);
      var st' := CompileEntry(funcs, st, en, dest);
      && st'.code == st4.code && st1.code == st.code && Shape(st, st1)
      && Grows(st1, st') && Grows(st2, st') && Grows(st3, st') && Grows(st4, st')
    ensures Mentions(en.val) <= MentionsEntry(en)
  {
    hide Alloc;
    hide Free;
    hide EmitSetKey;
    hide CompileExpr;
    var name := KeyName(en);
    var (st1, ki) := Intern(st, CStr(name));
    ShapeIntern(st, CStr(name));
    assert st1.code == st.code;
    hide Intern;
    var (st2, vr) := Alloc(st1);
    var st3 := CompileExpr(funcs, st2, en.val, vr);
    var st4 := EmitSetKey(st3, ki, dest, vr);
    assert CompileEntry(funcs, st, en, dest) == Free(st4, vr);
    hide CompileEntry;
    ShapeAlloc(st1);
    ShapeExpr(funcs, st2, en.val, vr);
    ShapeSetKey(st3, ki, dest, vr);
    ShapeFree(st4, vr);
    hide Inv;
    hide Keeps;
  }

  lemma KeyEntryEval(P: Prog, E: Scope, en: Entry, m: Value, w: World, fuel: nat)
    requires ConstKey(en)
    ensures var r := Eval(P, E, en.val, w, fuel);
      EvalEntry(P, E, en, m, w, fuel) == if r.Val? then SetField(P, m, KeyName(en), r.v, r.w) else r
  {
    hide Eval;
    hide SetField;
  }

  lemma {:induction false} KeyEntryCorrect(J: Job, k: Ctl, st: CS, st': CS, E: Scope, regs: Regs, w: World,
    live: set<int>, names: set<Text>, en: Entry, dest: Byte, fuel: nat)
    returns (n: nat, regs1: Regs)
    requires Base(J, k, st, st', E, regs, live, names) && MentionsEntry(en) <= names && CallsOk(J, fuel) && ConstKey(en)
    requires dest in live && Grows(CompileEntry(J.P.funcs, st, en, dest), st')
    ensures Ends(J, At(k, |st.code|, regs, w), k, |CompileEntry(J.P.funcs, st, en, dest).code|, dest, live - {dest},
      regs, EvalEntry(J.P, E, en, Get(regs, dest), w, fuel), fuel, false, n, regs1)
    decreases en, 1
  {
    hide *;
    var name := KeyName(en);
    var st5 := CompileEntry(J.P.funcs, st, en, dest);
    var (st1, ki) := Intern(st, CStr(name));
    var (st2, vr) := Alloc(st1);
    var st3 := CompileExpr(J.P.funcs, st2, en.val, vr);
    var st4 := EmitSetKey(st3, ki, dest, vr);
    KeyEntryCode(J.P.funcs, st, en, dest);
    KeyEntryEval(J.P, E, en, Get(regs, dest), w, fuel);
    GrowsTrans(st1, st5, st');
    GrowsTrans(st2, st5, st');
    GrowsTrans(st3, st5, st');
    GrowsTrans(st4, st5, st');
    PoolFacts(J, k, st, st', E, regs, live, names, st1);
    InternFacts(st, CStr(name), J.ch.consts);
    BaseStep(J, k, st, st', E, regs, live, names, st1);
    var s := At(k, |st.code|, regs, w);
    var r := Eval(J.P, E, en.val, w, fuel);
    ReachStart(J, k, |st.code|, live, regs, w);
    var m1, regs2 := Operand(J, k, st1, st', E, s, 0, live, regs, regs, w, live, names, en.val, fuel);
    if !r.Val? {
      n, regs1 := m1, regs2;
      FailedEnds(J, s, k, live, regs, r, fuel, m1, regs2, |st5.code|, dest, false);
      return;
    }
    SameElim(live, regs, regs2);
    var live1 := live + {vr};
    var q := SetField(J.P, Get(regs, dest), name, r.v, r.w);
    var m2, regs3 := SetKeyCorrect(J, k, st3, st', E, regs2, r.w, live1, names, name, ki, dest, vr, fuel);
    n, regs1 := m1 + m2, regs3;
    EndsLess(J, At(k, |st3.code|, regs2, r.w), k, |st5.code|, dest, live1 - {dest}, live - {dest}, regs2, q, fuel, true,
      m2, regs3);
    EndsWeak(J, At(k, |st3.code|, regs2, r.w), k, |st5.code|, dest, live - {dest}, regs2, q, fuel, true, m2, regs3);
    ReachEnd(J, s, m1, k, |st3.code|, live, regs, regs2, r.w, |st5.code|, dest, live - {dest}, q, fuel, false, m2,
      regs3);
  }

  lemma EntryCode(funcs: seq<FuncDecl>, st: CS, en: Entry, dest: Byte)
    requires !ConstKey(en)
    ensures var (st1, kr) := Alloc(st);
      var st2 := CompileExpr(funcs, st1, en.key, kr);
      var (st3, vr) := Alloc(st2);
      var st4 := CompileExpr(funcs, st3, en.val, vr);
      var st' := CompileEntry(funcs, st, en, dest);
      && st'.code == st4.code + [MakeABC(SETI, dest, kr, vr)] && |st'.code| == |st4.code| + 1 && |st.code| <= |st4.code|
      && Grows(st1, st') && Grows(st2, st') && Grows(st3, st') && Grows(st4, st')
    ensures Mentions(en.key) <= MentionsEntry(en) && Mentions(en.val) <= MentionsEntry(en)
  {
    hide Alloc;
    hide Free;
    hide CompileExpr;
    var (st1, kr) := Alloc(st);
    var st2 := CompileExpr(funcs, st1, en.key, kr);
    var (st3, vr) := Alloc(st2);
    var st4 := CompileExpr(funcs, st3, en.val, vr);
    var st5 := Emit(st4, MakeABC(SETI, dest, kr, vr));
    assert CompileEntry(funcs, st, en, dest) == Free(Free(st5, kr), vr);
    hide CompileEntry;
    ShapeAlloc(st);
    ShapeAlloc(st2);
    ShapeExpr(funcs, st1, en.key, kr);
    ShapeExpr(funcs, st3, en.val, vr);
    ShapeFree(st5, kr);
    ShapeFree(Free(st5, kr), vr);
    hide Inv;
    hide Keeps;
  }

  lemma EntryEval(P: Prog, E: Scope, en: Entry, m: Value, w: World, fuel: nat)
    requires !ConstKey(en)
    ensures var r := Eval(P, E, en.key, w, fuel);
      EvalEntry(P, E, en, m, w, fuel) ==
        if !r.Val? then r else
        var q := Eval(P, E, en.val, r.w, fuel);
        if !q.Val? then q else Ask(P, SETI, [m, r.v, q.v], q.w)
  {
    hide Eval;
    hide Ask;
  }

  lemma {:induction false} EntryCorrect(J: Job, k: Ctl, st: CS, st': CS, E: Scope, regs: Regs, w: World, live: set<int>,
    names: set<Text>, en: Entry, dest: Byte, fuel: nat)
    returns (n: nat, regs1: Regs)
    requires Base(J, k, st, st', E, regs, live, names) && MentionsEntry(en) <= names && CallsOk(J, fuel)
    requires dest in live && Grows(CompileEntry(J.P.funcs, st, en, dest), st')
    ensures Ends(J, At(k, |st.code|, regs, w), k, |CompileEntry(J.P.funcs, st, en, dest).code|, dest, live - {dest},
      regs, EvalEntry(J.P, E, en, Get(regs, dest), w, fuel), fuel, false, n, regs1)
    decreases en, 2
  {
    hide *;
    if ConstKey(en) {
      n, regs1 := KeyEntryCorrect(J, k, st, st', E, regs, w, live, names, en, dest, fuel);
      return;
    }
    var st5 := CompileEntry(J.P.funcs, st, en, dest);
    var (st1, kr) := Alloc(st);
    var st2 := CompileExpr(J.P.funcs, st1, en.key, kr);
    var (st3, vr) := Alloc(st2);
    var st4 := CompileExpr(J.P.funcs, st3, en.val, vr);
    EntryCode(J.P.funcs, st, en, dest);
    EntryEval(J.P, E, en, Get(regs, dest), w, fuel);
    GrowsTrans(st1, st5, st');
    GrowsTrans(st2, st5, st');
    GrowsTrans(st3, st5, st');
    GrowsTrans(st4, st5, st');
    BaseHosted(J, k, st, st', E, regs, live, names);
    var s := At(k, |st.code|, regs, w);
    var r := Eval(J.P, E, en.key, w, fuel);
    ReachStart(J, k, |st.code|, live, regs, w);
    var m1, regs2 := Operand(J, k, st, st', E, s, 0, live, regs, regs, w, live, names, en.key, fuel);
    if !r.Val? {
      n, regs1 := m1, regs2;
      FailedEnds(J, s, k, live, regs, r, fuel, m1, regs2, |st5.code|, dest, false);
      return;
    }
    var q := Eval(J.P, E, en.val, r.w, fuel);
    var m2, regs3 := Operand(J, k, st2, st', E, s, m1, live, regs, regs2, r.w, live + {kr}, names, en.val, fuel);
    if !q.Val? {
      n, regs1 := m2, regs3;
      FailedEnds(J, s, k, live, regs, q, fuel, m2, regs3, |st5.code|, dest, false);
      return;
    }
    SameElim(live, regs, regs2);
    SameElim(live + {kr}, regs2, regs3);
    StoreOperands(regs3, dest, kr, vr);
    CodeStays(st5, st', |st4.code|);
    n, regs1 := PrimLast(J, k, st, st', s, m2, |st4.code|, MakeABC(SETI, dest, kr, vr), [Get(regs, dest), r.v, q.v],
      regs, regs3, q.w, live, fuel);
    EndsWeak(J, s, k, |st5.code|, dest, live - {dest}, regs, Ask(J.P, SETI, [Get(regs, dest), r.v, q.v], q.w), fuel,
      true, n, regs1);
  }

  lemma EntriesIs(P: Prog, E: Scope, st: CS, entries: seq<Entry>, dest: Byte, m: Value, w: World, fuel: nat)
    requires entries != []
    ensures CompileEntries(P.funcs, st, entries, dest) ==
      CompileEntries(P.funcs, CompileEntry(P.funcs, st, entries[0], dest), entries[1..], dest)
    ensures var r := EvalEntry(P, E, entries[0], m, w, fuel);
      EvalEntries(P, E, entries, m, w, fuel) == if r.Val? then EvalEntries(P, E, entries[1..], r.v, r.w, fuel) else r
    ensures MentionsEntry(entries[0]) <= MentionsEntries(entries)
      && MentionsEntries(entries[1..]) <= MentionsEntries(entries)
    ensures var st1 := CompileEntry(P.funcs, st, entries[0], dest);
      Shape(st, st1) && Shape(st1, CompileEntries(P.funcs, st1, entries[1..], dest))
  {
    hide CompileEntry;
    hide EvalEntry;
    hide MentionsEntry;
    ShapeEntry(P.funcs, st, entries[0], dest);
    ShapeEntries(P.funcs, CompileEntry(P.funcs, st, entries[0], dest), entries[1..], dest);
    hide Shape;
  }

  lemma EntriesNil(P: Prog, E: Scope, st: CS, dest: Byte, m: Value, w: World, fuel: nat)
    ensures CompileEntries(P.funcs, st, [], dest) == st && EvalEntries(P, E, [], m, w, fuel) == Val(m, w)
  {
  }

  lemma ShapeGrows(a: CS, b: CS, c: CS)
    requires Shape(a, b) && Grows(b, c)
    ensures Grows(a, c) && b.locals == a.locals
  {
  }

  lemma {:induction false} EntriesCorrect(J: Job, k: Ctl, st: CS, st': CS, E: Scope, regs: Regs, w: World,
    live: set<int>, names: set<Text>, entries: seq<Entry>, dest: Byte, fuel: nat)
    returns (n: nat, regs1: Regs)
    requires Base(J, k, st, st', E, regs, live, names) && MentionsEntries(entries) <= names && CallsOk(J, fuel)
    requires dest in live && Unread(st.locals, names, dest) && Grows(CompileEntries(J.P.funcs, st, entries, dest), st')
    ensures Ends(J, At(k, |st.code|, regs, w), k, |CompileEntries(J.P.funcs, st, entries, dest).code|, dest,
      live - {dest}, regs,
                 EvalEntries(J.P, E, entries, Get(regs, dest), w, fuel), fuel, false, n, regs1)
    decreases entries, 0
  {
    hide *;
    var s := At(k, |st.code|, regs, w);
    var m := Get(regs, dest);
    if entries == [] {
      n, regs1 := 0, regs;
      EntriesNil(J.P, E, st, dest, m, w, fuel);
      GoesZero(J, s);
      SameIntro(live - {dest}, regs, regs);
      EndsIntro(J, s, k, |st.code|, dest, live - {dest}, regs, Val(m, w), fuel, false, 0, regs);
      return;
    }
    EntriesIs(J.P, E, st, entries, dest, m, w, fuel);
    var st1 := CompileEntry(J.P.funcs, st, entries[0], dest);
    var st2 := CompileEntries(J.P.funcs, st1, entries[1..], dest);
    ShapeGrows(st1, st2, st');
    var r := EvalEntry(J.P, E, entries[0], m, w, fuel);
    var m1, regs2 := EntryCorrect(J, k, st, st', E, regs, w, live, names, entries[0], dest, fuel);
    if !r.Val? {
      n, regs1 := m1, regs2;
      EndsElsewhere(J, s, k, |st1.code|, |st2.code|, dest, live - {dest}, regs, r, fuel, false, n, regs1);
      return;
    }
    EndsVal(J, s, k, |st1.code|, dest, live - {dest}, regs, r, fuel, false, m1, regs2);
    UnreadBase(J, k, st, st', E, regs, live, names, dest, regs2);
    BaseStep(J, k, st, st', E, regs2, live, names, st1);
    ShapeLocals(st, st1);
    SameReach(J, s, m1, k, |st1.code|, live - {dest}, regs, regs2, r.w);
    var m2, regs3 := EntriesCorrect(J, k, st1, st', E, regs2, r.w, live, names, entries[1..], dest, fuel);
    n, regs1 := m1 + m2, regs3;
    ReachEnd(J, s, m1, k, |st1.code|, live - {dest}, regs, regs2, r.w, |st2.code|, dest, live - {dest},
             EvalEntries(J.P, E, entries[1..], r.v, r.w, fuel), fuel, false, m2, regs3);
  }

  lemma MapIs(P: Prog, E: Scope, st: CS, e: Expr, dest: Byte, w: World, fuel: nat)
    requires e.MapLit?
    ensures var st1 := Emit(st, MakeABC(NEWMAP, dest, 0, 0));
      var st' := CompileExpr(P.funcs, st, e, dest);
      && st' == CompileEntries(P.funcs, st1, e.entries, dest)
      && Shape(st, st1) && Shape(st1, st') && |st1.code| == |st.code| + 1 <= |st'.code|
        && st'.code[|st.code|] == MakeABC(NEWMAP, dest, 0, 0)
    ensures var r := Ask(P, NEWMAP, [], w);
      Eval(P, E, e, w, fuel) == if r.Val? then EvalEntries(P, E, e.entries, r.v, r.w, fuel) else r
    ensures Mentions(e) == MentionsEntries(e.entries) && !Atomic(e)
  {
    hide Ask;
    hide Truthy;
    var st1 := Emit(st, MakeABC(NEWMAP, dest, 0, 0));
    hide CompileEntries;
    ShapeEntries(P.funcs, st1, e.entries, dest);
    ShapeEmit(st, MakeABC(NEWMAP, dest, 0, 0));
    hide Inv;
    hide Keeps;
  }

  lemma NewMapOperands(regs: Regs, dest: Byte)
    ensures var ins := MakeABC(NEWMAP, dest, 0, 0);
      IsPrim(ins.op) && Operands(regs, ins) == [] && ins.op == NEWMAP
      && ins.a == dest
  {
  }

  lemma MapDest(locals: map<Text, Byte>, e: Expr, dest: int)
    requires e.MapLit? && DestOk(locals, e, dest)
    ensures Unread(locals, MentionsEntries(e.entries), dest)
  {
  }

  lemma GrowsSelf(st: CS)
    ensures Grows(st, st)
  {
  }

  lemma {:induction false} MapCorrect(J: Job, k: Ctl, st: CS, e: Expr, dest: Byte, E: Scope, regs: Regs, w: World,
    live: set<int>, fuel: nat)
    returns (n: nat, regs': Regs)
    requires e.MapLit? && DestOk(st.locals, e, dest)
      && Base(J, k, st, CompileExpr(J.P.funcs, st, e, dest), E, regs, live, Mentions(e))
    requires dest in live && CallsOk(J, fuel)
    ensures Ends(J, At(k, |st.code|, regs, w), k, |CompileExpr(J.P.funcs, st, e, dest).code|, dest, live - {dest}, regs,
                 Eval(J.P, E, e, w, fuel), fuel, Atomic(e), n, regs')
    decreases e, 1
  {
    hide *;
    var st' := CompileExpr(J.P.funcs, st, e, dest);
    var st1 := Emit(st, MakeABC(NEWMAP, dest, 0, 0));
    MapIs(J.P, E, st, e, dest, w, fuel);
    MapDest(st.locals, e, dest);
    BaseHosted(J, k, st, st', E, regs, live, Mentions(e));
    NewMapOperands(regs, dest);
    var s := At(k, |st.code|, regs, w);
    var r := Ask(J.P, NEWMAP, [], w);
    ReachStart(J, k, |st.code|, live, regs, w);
    var m1, regs1 := PrimLast(J, k, st, st', s, 0, |st.code|, MakeABC(NEWMAP, dest, 0, 0), [], regs, regs, w, live,
      fuel);
    if !r.Val? {
      n, regs' := m1, regs1;
      EndsElsewhere(J, s, k, |st1.code|, |st'.code|, dest, live - {dest}, regs, r, fuel, true, n, regs');
      return;
    }
    EndsVal(J, s, k, |st1.code|, dest, live - {dest}, regs, r, fuel, true, m1, regs1);
    UnreadBase(J, k, st, st', E, regs, live, Mentions(e), dest, regs1);
    GrowsSelf(st');
    ShapeGrows(st1, st', st');
    BaseStep(J, k, st, st', E, regs1, live, Mentions(e), st1);
    ShapeLocals(st, st1);
    SameReach(J, s, m1, k, |st1.code|, live - {dest}, regs, regs1, r.w);
    var m2, regs2 := EntriesCorrect(J, k, st1, st', E, regs1, r.w, live, Mentions(e), e.entries, dest, fuel);
    n, regs' := m1 + m2, regs2;
    ReachEnd(J, s, m1, k, |st1.code|, live - {dest}, regs, regs1, r.w, |st'.code|, dest, live - {dest},
             EvalEntries(J.P, E, e.entries, r.v, r.w, fuel), fuel, false, m2, regs2);
  }

  lemma LitIs(P: Prog, E: Scope, st: CS, e: Expr, dest: Byte, w: World, fuel: nat)
    requires e.Lit?
    ensures CompileExpr(P.funcs, st, e, dest) == CompileLiteral(st, e.lit, dest)
      && Eval(P, E, e, w, fuel) == Val(LitValue(e.lit), w)
    ensures Atomic(e) && Mentions(e) == {}
  {
    hide CompileLiteral;
    hide LitValue;
  }

  lemma IdentIs(P: Prog, E: Scope, st: CS, e: Expr, dest: Byte, w: World, fuel: nat)
    requires e.Ident?
    ensures CompileExpr(P.funcs, st, e, dest) == CompileIdent(P.funcs, st, e.name, dest)
    ensures Eval(P, E, e, w, fuel) == Val(NameValue(P, E, e.name, w), w)
    ensures Atomic(e) && Mentions(e) == {e.name}
  {
    hide CompileIdent;
    hide NameValue;
  }

  /**
   Expression compiler correctness.  Started at the expression's first instruction with the scope's values in the
   registers of its names, the machine ends past the expression with its value in dest, or raises the same error, or
   (the interpreter out of fuel) is still running; no live register other than dest has changed.
   */
  lemma {:induction false} ExpressionCorrect(J: Job, k: Ctl, st: CS, e: Expr, dest: Byte, E: Scope, regs: Regs,
    w: World, live: set<int>, fuel: nat)
    returns (n: nat, regs': Regs)
    requires Base(J, k, st, CompileExpr(J.P.funcs, st, e, dest), E, regs, live, Mentions(e))
    requires dest in live && DestOk(st.locals, e, dest) && CallsOk(J, fuel)
    ensures Ends(J, At(k, |st.code|, regs, w), k, |CompileExpr(J.P.funcs, st, e, dest).code|, dest, live - {dest}, regs,
                 Eval(J.P, E, e, w, fuel), fuel, Atomic(e), n, regs')
    decreases e, 2
  {
    hide *;
    match e
    case Lit(lit) =>
      LitIs(J.P, E, st, e, dest, w, fuel);
      n, regs' := LiteralCorrect(J, k, st, lit, dest, E, regs, w, live, fuel);
    case Ident(name) =>
      IdentIs(J.P, E, st, e, dest, w, fuel);
      n, regs' := IdentCorrect(J, k, st, name, dest, E, regs, w, live, fuel);
    case Unary(_, _) => n, regs' := UnaryCorrect(J, k, st, e, dest, E, regs, w, live, fuel);
    case Binary(op, _, _) =>
      if op == AndAnd || op == OrOr {
        n, regs' := LogicCorrect(J, k, st, e, dest, E, regs, w, live, fuel);
      } else {
        n, regs' := BinaryCorrect(J, k, st, e, dest, E, regs, w, live, fuel);
      }
    case Ternary(_, _, _) => n, regs' := TernaryCorrect(J, k, st, e, dest, E, regs, w, live, fuel);
    case Call(_, _) => n, regs' := CallCorrect(J, k, st, e, dest, E, regs, w, live, fuel);
    case Index(_, _) => n, regs' := IndexCorrect(J, k, st, e, dest, E, regs, w, live, fuel);
    case Field(_, _) => n, regs' := FieldCorrect(J, k, st, e, dest, E, regs, w, live, fuel);
    case ArrayLit(es) =>
      if es == [] {
        n, regs' := EmptyArrayCorrect(J, k, st, e, dest, E, regs, w, live, fuel);
      } else {
        n, regs' := ArrayCorrect(J, k, st, e, dest, E, regs, w, live, fuel);
      }
    case MapLit(_) => n, regs' := MapCorrect(J, k, st, e, dest, E, regs, w, live, fuel);
  }
}
