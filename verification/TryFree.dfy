/**
 Programs without try compile to code that the obfuscator handles faithfully: no TRY, every constant operand in the
 pool, and no global loaded under the name of a function.
 */
module TryFree {
  import opened Bytecode
  import opened Ast
  import opened Compiler
  import opened CompilerShape
  import opened StmtShape
  import Vm
  import Obfus

  predicate NoTry(s: Stmt)
    decreases s, 1
  {
    match s
    case Block(ss) => NoTries(ss)
    case If(_, thn, els) => NoTries(thn) && (els.Some? ==> NoTry(els.value))
    case While(_, body) => NoTries(body)
    case Switch(_, cases, default) => NoTryCases(cases) && (default.Default? ==> NoTries(default.body))
    case Try(_, _, _) => false
    case _ => true
  }

  predicate NoTries(ss: seq<Stmt>)
    decreases ss, 0
  {
    ss == [] || (NoTry(ss[0]) && NoTries(ss[1..]))
  }

  predicate NoTryCases(cases: seq<Case>)
    decreases cases, 0
  {
    cases == [] || (NoTries(cases[0].body) && NoTryCases(cases[1..]))
  }

  /** The name of the global that LOADG loads is not the name of a function of the unit. */
  predicate LoadsGlobal(funcs: seq<FuncDecl>, pool: seq<Constant>, ins: Instr) {
    |pool| <= 0x1_0000 ==> ins.Bx() < |pool| && pool[ins.Bx()].CStr? && FuncIndex(funcs, pool[ins.Bx()].s) >= |funcs|
  }

  predicate Harmless(funcs: seq<FuncDecl>, pool: seq<Constant>, ins: Instr) {
    ins.op != TRY && Obfus.InPool(ins, |pool|) && (ins.op == LOADG ==> LoadsGlobal(funcs, pool, ins))
  }

  /** Every instruction so far. */
  ghost predicate Clean(funcs: seq<FuncDecl>, st: CS) {
    forall i :: 0 <= i < |st.code| ==> Harmless(funcs, st.pool, st.code[i])
  }

  // ---- single steps ----

  lemma CleanEmit(funcs: seq<FuncDecl>, st: CS, ins: Instr)
    requires Clean(funcs, st) && Harmless(funcs, st.pool, ins)
    ensures Clean(funcs, Emit(st, ins))
  {
    hide Harmless;
  }

  lemma CleanSame(funcs: seq<FuncDecl>, a: CS, b: CS)
    requires Clean(funcs, a) && b.code == a.code && a.pool <= b.pool
    ensures Clean(funcs, b)
  {
  }

  lemma CleanPatch(funcs: seq<FuncDecl>, st: CS, ip: int, off: int)
    requires Clean(funcs, st) && 0 <= ip < |st.code| && Vm.IsJump(st.code[ip].op)
    ensures Clean(funcs, PatchSbx(st, ip, off))
    ensures |PatchSbx(st, ip, off).code| == |st.code|
    ensures forall i :: 0 <= i < |st.code| ==> PatchSbx(st, ip, off).code[i].op == st.code[i].op
  {
    hide MakeAsBx, ToI16;
  }

  lemma {:induction false} CleanPatchAll(funcs: seq<FuncDecl>, st: CS, ips: seq<int>, t: nat)
    requires Clean(funcs, st) && forall i :: i in ips ==> 0 <= i < |st.code| && Vm.IsJump(st.code[i].op)
    ensures Clean(funcs, PatchAll(st, ips, t))
    decreases |ips|
  {
    hide Clean, PatchSbx, Vm.IsJump;
    if ips != [] {
      assert ips[0] in ips && forall i :: i in ips[1..] ==> i in ips;
      CleanPatch(funcs, st, ips[0], t - ips[0] - 1);
      CleanPatchAll(funcs, PatchSbx(st, ips[0], t - ips[0] - 1), ips[1..], t);
    }
  }

  lemma CleanAlloc(funcs: seq<FuncDecl>, st: CS)
    requires Clean(funcs, st)
    ensures Clean(funcs, Alloc(st).0)
  {
    hide Clean;
    CleanSame(funcs, st, Alloc(st).0);
  }

  lemma CleanFree(funcs: seq<FuncDecl>, st: CS, r: Byte)
    requires Clean(funcs, st)
    ensures Clean(funcs, Free(st, r))
  {
    hide Clean;
    CleanSame(funcs, st, Free(st, r));
  }

  lemma CleanFree2(funcs: seq<FuncDecl>, st: CS, r: Byte, q: Byte)
    requires Clean(funcs, st)
    ensures Clean(funcs, Free(Free(st, r), q))
  {
    hide Clean, Free;
    CleanFree(funcs, st, r);
    CleanFree(funcs, Free(st, r), q);
  }

  lemma CleanIntern(funcs: seq<FuncDecl>, st: CS, k: Constant)
    requires Clean(funcs, st)
    ensures Clean(funcs, Intern(st, k).0) && Intern(st, k).1 < |Intern(st, k).0.pool|
      && Intern(st, k).0.pool[Intern(st, k).1] == k
  {
    hide Clean;
    CleanSame(funcs, st, Intern(st, k).0);
  }

  /** An instruction that is neither TRY nor names a constant. */
  predicate Bare(op: Byte) { op != TRY && !Vm.UsesConst(op) }

  lemma BareHarmless(funcs: seq<FuncDecl>, pool: seq<Constant>, ins: Instr)
    requires Bare(ins.op)
    ensures Harmless(funcs, pool, ins)
  {
    hide FuncIndex;
  }

  lemma CleanBare(funcs: seq<FuncDecl>, st: CS, ins: Instr)
    requires Clean(funcs, st) && Bare(ins.op)
    ensures Clean(funcs, Emit(st, ins))
  {
    hide Clean, Bare;
    BareHarmless(funcs, st.pool, ins);
    CleanEmit(funcs, st, ins);
  }

  /** An instruction with a 16-bit pool index. */
  lemma CleanWide(funcs: seq<FuncDecl>, st: CS, op: Byte, a: Byte, ki: nat)
    requires Clean(funcs, st) && (op == LOADK || op == LOADG || op == STOREG) && ki < |st.pool|
    requires op == LOADG ==> st.pool[ki].CStr? && FuncIndex(funcs, st.pool[ki].s) >= |funcs|
    ensures Clean(funcs, Emit(st, MakeABx(op, a, ki % 0x1_0000)))
  {
    hide Clean, MakeABx, Instr.Bx;
    CleanEmit(funcs, st, MakeABx(op, a, ki % 0x1_0000));
  }

  // ---- expressions ----

  lemma CleanConst(funcs: seq<FuncDecl>, st: CS, k: Constant, dest: Byte)
    requires Clean(funcs, st)
    ensures Clean(funcs, LoadConst(st, k, dest))
  {
    hide Clean, Intern, MakeABx;
    CleanIntern(funcs, st, k);
    CleanWide(funcs, Intern(st, k).0, LOADK, dest, Intern(st, k).1);
  }

  lemma CleanLiteral(funcs: seq<FuncDecl>, st: CS, lit: Literal, dest: Byte)
    requires Clean(funcs, st)
    ensures Clean(funcs, CompileLiteral(st, lit, dest))
  {
    hide Clean, LoadConst, MakeAsBx;
    match lit
    case LNull => CleanBare(funcs, st, MakeABC(LOADN, dest, 0, 0));
    case LBool(b) => CleanBare(funcs, st, MakeABC(LOADB, dest, if b then 1 else 0, 0));
    case LInt(i) =>
      if -0x8000 <= i < 0x8000 {
        CleanBare(funcs, st, MakeAsBx(LOADI, dest, i));
      } else {
        CleanConst(funcs, st, CInt(i), dest);
      }
    case LFloat(bits) => CleanConst(funcs, st, CFloat(bits), dest);
    case LStr(s) => CleanConst(funcs, st, CStr(s), dest);
  }

  lemma CleanIdent(funcs: seq<FuncDecl>, st: CS, name: Text, dest: Byte)
    requires Clean(funcs, st)
    ensures Clean(funcs, CompileIdent(funcs, st, name, dest))
  {
    hide Clean, Intern, MakeABx, FuncIndex;
    if name in st.locals {
      CleanBare(funcs, st, MakeABC(MOVE, dest, st.locals[name], 0));
    } else if FuncIndex(funcs, name) < |funcs| {
      CleanBare(funcs, st, MakeABx(MAKEFN, dest, FuncIndex(funcs, name) % 0x1_0000));
    } else {
      CleanIntern(funcs, st, CStr(name));
      CleanWide(funcs, Intern(st, CStr(name)).0, LOADG, dest, Intern(st, CStr(name)).1);
    }
  }

  /** A key that does not fit goes through a register. */
  lemma CleanThrough(funcs: seq<FuncDecl>, st: CS, ki: nat, ins: Byte -> Instr)
    requires Clean(funcs, st) && ki < |st.pool| && forall r :: Bare(ins(r).op)
    ensures var (st2, kr) := Alloc(st); Clean(funcs,
      Free(Emit(Emit(st2, MakeABx(LOADK, kr, ki % 0x1_0000)), ins(kr)), kr))
  {
    hide Clean, MakeABx, Free, Bare;
    var (st2, kr) := Alloc(st);
    CleanAlloc(funcs, st);
    CleanWide(funcs, st2, LOADK, kr, ki);
    CleanBare(funcs, Emit(st2, MakeABx(LOADK, kr, ki % 0x1_0000)), ins(kr));
    CleanFree(funcs, Emit(Emit(st2, MakeABx(LOADK, kr, ki % 0x1_0000)), ins(kr)), kr);
  }

  lemma CleanGetField(funcs: seq<FuncDecl>, st: CS, name: Text, dest: Byte, obj: Byte)
    requires Clean(funcs, st)
    ensures Clean(funcs, EmitGetField(st, name, dest, obj))
  {
    hide Clean, MakeABx, Alloc, Free, Intern;
    var (st0, ki) := Intern(st, CStr(name));
    var st1 := NoteKey(st0, ki);
    CleanIntern(funcs, st, CStr(name));
    CleanSame(funcs, st0, st1);
    if ki <= 255 {
      CleanEmit(funcs, st1, MakeABC(GETK, dest, obj, ki));
    } else {
      CleanThrough(funcs, st1, ki, (r: Byte) => MakeABC(GETI, dest, obj, r));
    }
  }

  lemma CleanSetKey(funcs: seq<FuncDecl>, st: CS, ki: nat, obj: Byte, val: Byte)
    requires Clean(funcs, st) && ki < |st.pool|
    ensures Clean(funcs, EmitSetKey(st, ki, obj, val))
  {
    hide Clean, MakeABx, Alloc, Free;
    var st1 := NoteKey(st, ki);
    CleanSame(funcs, st, st1);
    if ki <= 255 {
      CleanEmit(funcs, st1, MakeABC(SETK, obj, ki, val));
    } else {
      CleanThrough(funcs, st1, ki, (r: Byte) => MakeABC(SETI, obj, r, val));
    }
  }

  lemma CleanSetField(funcs: seq<FuncDecl>, st: CS, name: Text, obj: Byte, val: Byte)
    requires Clean(funcs, st)
    ensures Clean(funcs, EmitSetField(st, name, obj, val))
  {
    hide Clean, Intern, EmitSetKey;
    CleanIntern(funcs, st, CStr(name));
    CleanSetKey(funcs, Intern(st, CStr(name)).0, Intern(st, CStr(name)).1, obj, val);
  }

  lemma OpsBare()
    ensures forall op: UnOp :: Bare(UnOpcode(op))
    ensures forall op: BinOp :: Bare(BinOpcode(op))
  {
  }

  lemma {:induction false} CleanExpr(funcs: seq<FuncDecl>, st: CS, e: Expr, dest: Byte)
    requires Clean(funcs, st)
    ensures Clean(funcs, CompileExpr(funcs, st, e, dest))
    decreases e, 2
  {
    hide Clean, CompileBinary, CompileTernary, CompileCall, CompileArray, CompileEntries, CompileLiteral, CompileIdent,
      EmitGetField,
      Alloc, Free, Bare, UnOpcode;
    match e
    case Lit(lit) => CleanLiteral(funcs, st, lit, dest);
    case Ident(name) => CleanIdent(funcs, st, name, dest);
    case Unary(op, x) =>
      var (st1, tmp) := Alloc(st);
      var st2 := CompileExpr(funcs, st1, x, tmp);
      CleanAlloc(funcs, st);
      CleanExpr(funcs, st1, x, tmp);
      OpsBare();
      CleanBare(funcs, st2, MakeABC(UnOpcode(op), dest, tmp, 0));
      CleanFree(funcs, Emit(st2, MakeABC(UnOpcode(op), dest, tmp, 0)), tmp);
    case Binary(_, _, _) => CleanBinary(funcs, st, e, dest);
    case Ternary(_, _, _) => CleanTernary(funcs, st, e, dest);
    case Call(_, _) => CleanCall(funcs, st, e, dest);
    case Index(x, i) =>
      var (st1, obj) := Alloc(st);
      var st2 := CompileExpr(funcs, st1, x, obj);
      var (st3, idx) := Alloc(st2);
      var st4 := CompileExpr(funcs, st3, i, idx);
      CleanAlloc(funcs, st);
      CleanExpr(funcs, st1, x, obj);
      CleanAlloc(funcs, st2);
      CleanExpr(funcs, st3, i, idx);
      CleanStore(funcs, st4, GETI, dest, obj, idx);
      CleanFree2(funcs, Emit(st4, MakeABC(GETI, dest, obj, idx)), obj, idx);
    case Field(x, name) =>
      var (st1, obj) := Alloc(st);
      var st2 := CompileExpr(funcs, st1, x, obj);
      CleanAlloc(funcs, st);
      CleanExpr(funcs, st1, x, obj);
      CleanGetField(funcs, st2, name, dest, obj);
      CleanFree(funcs, EmitGetField(st2, name, dest, obj), obj);
    case ArrayLit(_) => CleanArray(funcs, st, e, dest);
    case MapLit(entries) =>
      CleanStore(funcs, st, NEWMAP, dest, 0, 0);
      CleanEntries(funcs, Emit(st, MakeABC(NEWMAP, dest, 0, 0)), entries, dest);
  }

  lemma CleanStore(funcs: seq<FuncDecl>, st: CS, op: Byte, a: Byte, b: Byte, c: Byte)
    requires Clean(funcs, st) && op in {GETI, SETI, NEWMAP, NEWARR, CALL, RET, RETN, THROW, EQ, MOVE, LOADB}
    ensures Clean(funcs, Emit(st, MakeABC(op, a, b, c)))
  {
    hide Clean;
    CleanBare(funcs, st, MakeABC(op, a, b, c));
  }

  /** Code compiled later leaves an instruction where it is. */
  lemma StillThere(a: CS, b: CS, ip: nat)
    requires Grows(a, b) && ip < |a.code|
    ensures ip < |b.code| && b.code[ip] == a.code[ip]
  {
  }

  lemma ShapeGrows(a: CS, b: CS)
    requires Shape(a, b)
    ensures Grows(a, b)
  {
  }

  lemma SShapeGrows(a: CS, b: CS)
    requires SShape(a, b)
    ensures Grows(a, b)
  {
  }

  lemma {:induction false} CleanBinary(funcs: seq<FuncDecl>, st: CS, e: Expr, dest: Byte)
    requires e.Binary? && Clean(funcs, st)
    ensures Clean(funcs, CompileBinary(funcs, st, e, dest))
    decreases e, 0
  {
    hide Clean, CompileExpr, Alloc, Free, Shape, PatchSbx, MakeAsBx, Bare, BinOpcode;
    if e.op == AndAnd || e.op == OrOr {
      var st1 := CompileExpr(funcs, st, e.left, dest);
      var j := MakeAsBx(if e.op == AndAnd then JF else JT, dest, 0);
      var st2 := CompileExpr(funcs, Emit(st1, j), e.right, dest);
      CleanExpr(funcs, st, e.left, dest);
      JumpBare(j);
      CleanBare(funcs, st1, j);
      CleanExpr(funcs, Emit(st1, j), e.right, dest);
      ShapeExpr(funcs, Emit(st1, j), e.right, dest);
      ShapeGrows(Emit(st1, j), st2);
      StillThere(Emit(st1, j), st2, |st1.code|);
      CleanPatch(funcs, st2, |st1.code|, |st2.code| - |st1.code| - 1);
    } else {
      var (st1, lr) := Alloc(st);
      var (st2, rr) := Alloc(st1);
      var st3 := CompileExpr(funcs, st2, e.left, lr);
      var st4 := CompileExpr(funcs, st3, e.right, rr);
      var ins := MakeABC(BinOpcode(e.op), dest, lr, rr);
      CleanAlloc(funcs, st);
      CleanAlloc(funcs, st1);
      CleanExpr(funcs, st2, e.left, lr);
      CleanExpr(funcs, st3, e.right, rr);
      OpsBare();
      CleanBare(funcs, st4, ins);
      CleanFree2(funcs, Emit(st4, ins), lr, rr);
    }
  }

  lemma JumpBare(j: Instr)
    requires Vm.IsJump(j.op)
    ensures Bare(j.op)
  {
  }

  /** A condition ends in its jump. */
  lemma {:induction false} CleanCondJump(funcs: seq<FuncDecl>, st: CS, c: Expr)
    requires Clean(funcs, st)
    ensures var st1 := CondJump(funcs, st, c);
      Clean(funcs, st1) && |st.code| < |st1.code| && Vm.IsJump(st1.code[|st1.code| - 1].op) && st1.loops == st.loops
    decreases c, 3
  {
    hide Clean, CompileExpr, Alloc, MakeAsBx, Bare, Shape;
    var (st1, cr) := Alloc(st);
    var st2 := CompileExpr(funcs, st1, c, cr);
    CleanAlloc(funcs, st);
    CleanExpr(funcs, st1, c, cr);
    JumpBare(MakeAsBx(JF, cr, 0));
    CleanBare(funcs, st2, MakeAsBx(JF, cr, 0));
    CleanFree(funcs, Emit(st2, MakeAsBx(JF, cr, 0)), cr);
    ShapeCondJump(funcs, st, c);
    ShapeLoops(st, CondJump(funcs, st, c));
  }

  /** After a first branch st2, whose condition ended in the jump before it. */
  lemma CleanJoin(funcs: seq<FuncDecl>, st1: CS, st2: CS)
    requires Clean(funcs, st2) && Grows(st1, st2) && st1.code != [] && Vm.IsJump(st1.code[|st1.code| - 1].op)
    ensures var st3 := IfJoin(st1, st2);
      Clean(funcs, st3) && |st3.code| == |st2.code| + 1 && Vm.IsJump(st3.code[|st2.code|].op)
  {
    hide Clean, MakeAsBx, PatchSbx, Bare;
    var j := MakeAsBx(JMP, 0, 0);
    StillThere(st1, st2, |st1.code| - 1);
    JumpBare(j);
    CleanBare(funcs, st2, j);
    CleanPatch(funcs, Emit(st2, j), |st1.code| - 1, |st2.code| + 1 - |st1.code|);
  }

  lemma {:induction false} CleanTernary(funcs: seq<FuncDecl>, st: CS, e: Expr, dest: Byte)
    requires e.Ternary? && Clean(funcs, st)
    ensures Clean(funcs, CompileTernary(funcs, st, e, dest))
    decreases e, 1
  {
    hide Clean, CompileExpr, CondJump, IfJoin, Shape, PatchSbx, Grows, Vm.IsJump;
    var st0 := CondJump(funcs, st, e.cond);
    var st0a := CompileExpr(funcs, st0, e.thn, dest);
    var st1 := IfJoin(st0, st0a);
    var st2 := CompileExpr(funcs, st1, e.els, dest);
    assert CompileTernary(funcs, st, e, dest) == PatchSbx(st2, |st1.code| - 1, |st2.code| - |st1.code|);
    CleanCondJump(funcs, st, e.cond);
    CleanExpr(funcs, st0, e.thn, dest);
    ShapeExpr(funcs, st0, e.thn, dest);
    ShapeGrows(st0, st0a);
    CleanJoin(funcs, st0, st0a);
    CleanExpr(funcs, st1, e.els, dest);
    ShapeExpr(funcs, st1, e.els, dest);
    ShapeGrows(st1, st2);
    StillThere(st1, st2, |st1.code| - 1);
    CleanPatch(funcs, st2, |st1.code| - 1, |st2.code| - |st1.code|);
  }

  lemma CleanRun(funcs: seq<FuncDecl>, st: CS, base: Byte, n: nat)
    requires Clean(funcs, st)
    ensures Clean(funcs, FreeRun(st, base, n))
  {
    hide Clean, FreeRun;
    FreeRunCode(st, base, n);
    CleanSame(funcs, st, FreeRun(st, base, n));
  }

  lemma {:induction false} CleanCall(funcs: seq<FuncDecl>, st: CS, e: Expr, dest: Byte)
    requires e.Call? && Clean(funcs, st)
    ensures Clean(funcs, CompileCall(funcs, st, e, dest))
    decreases e, 0
  {
    hide Clean, CompileExpr, CompileList, FreeRun;
    var n := |e.args|;
    var base := st.next % 0x100;
    var st1 := NoteRegs(Reserve(st, n + 1));
    var st2 := CompileExpr(funcs, st1, e.fun, base);
    var st3 := CompileList(funcs, st2, e.args, base + 1);
    CleanSame(funcs, st, st1);
    CleanExpr(funcs, st1, e.fun, base);
    CleanList(funcs, st2, e.args, base + 1);
    CleanStore(funcs, st3, CALL, dest, base, n % 0x100);
    CleanRun(funcs, Emit(st3, MakeABC(CALL, dest, base, n % 0x100)), base, n + 1);
  }

  lemma {:induction false} CleanArray(funcs: seq<FuncDecl>, st: CS, e: Expr, dest: Byte)
    requires e.ArrayLit? && Clean(funcs, st)
    ensures Clean(funcs, CompileArray(funcs, st, e, dest))
    decreases e, 0
  {
    hide Clean, CompileList, FreeRun, ArrayRegs, Inv, Keeps;
    var n := |e.elts|;
    if n == 0 {
      CleanStore(funcs, st, NEWARR, dest, 0, 0);
    } else {
      var (st1, base) := ArrayRegs(st, n);
      var st2 := CompileList(funcs, st1, e.elts, base);
      ShapeArrayRegs(st, n);
      CleanSame(funcs, st, st1);
      CleanList(funcs, st1, e.elts, base);
      CleanStore(funcs, st2, NEWARR, dest, base, n % 0x100);
      CleanRun(funcs, Emit(st2, MakeABC(NEWARR, dest, base, n % 0x100)), base, n);
    }
  }

  lemma {:induction false} CleanList(funcs: seq<FuncDecl>, st: CS, es: seq<Expr>, base: nat)
    requires Clean(funcs, st)
    ensures Clean(funcs, CompileList(funcs, st, es, base))
    decreases es, 0
  {
    hide Clean, CompileExpr;
    if es != [] {
      CleanExpr(funcs, st, es[0], base % 0x100);
      CleanList(funcs, CompileExpr(funcs, st, es[0], base % 0x100), es[1..], base + 1);
    }
  }

  lemma {:induction false} CleanEntries(funcs: seq<FuncDecl>, st: CS, entries: seq<Entry>, dest: Byte)
    requires Clean(funcs, st)
    ensures Clean(funcs, CompileEntries(funcs, st, entries, dest))
    decreases entries, 0
  {
    hide Clean, CompileEntry;
    if entries != [] {
      CleanEntry(funcs, st, entries[0], dest);
      CleanEntries(funcs, CompileEntry(funcs, st, entries[0], dest), entries[1..], dest);
    }
  }

  /** A name is interned before its value is compiled, and used after. */
  lemma {:induction false} CleanNamed(funcs: seq<FuncDecl>, st: CS, en: Entry, dest: Byte)
    requires Clean(funcs, st) && en.key.Lit? && en.key.lit.LStr?
    ensures Clean(funcs, CompileEntry(funcs, st, en, dest))
    decreases en, 1
  {
    hide Clean, CompileExpr, Alloc, Free, Intern, EmitSetKey, Inv, Keeps;
    var (st1, ki) := Intern(st, CStr(en.key.lit.s));
    var (st2, vr) := Alloc(st1);
    var st3 := CompileExpr(funcs, st2, en.val, vr);
    CleanIntern(funcs, st, CStr(en.key.lit.s));
    CleanAlloc(funcs, st1);
    ShapeAlloc(st1);
    CleanExpr(funcs, st2, en.val, vr);
    ShapeExpr(funcs, st2, en.val, vr);
    CleanSetKey(funcs, st3, ki, dest, vr);
    CleanFree(funcs, EmitSetKey(st3, ki, dest, vr), vr);
  }

  lemma {:induction false} CleanEntry(funcs: seq<FuncDecl>, st: CS, en: Entry, dest: Byte)
    requires Clean(funcs, st)
    ensures Clean(funcs, CompileEntry(funcs, st, en, dest))
    decreases en, 2
  {
    if en.key.Lit? && en.key.lit.LStr? {
      CleanNamed(funcs, st, en, dest);
    } else {
      hide Clean, CompileExpr, Alloc, Free;
      var (st1, kr) := Alloc(st);
      var st2 := CompileExpr(funcs, st1, en.key, kr);
      var (st3, vr) := Alloc(st2);
      var st4 := CompileExpr(funcs, st3, en.val, vr);
      CleanAlloc(funcs, st);
      CleanExpr(funcs, st1, en.key, kr);
      CleanAlloc(funcs, st2);
      CleanExpr(funcs, st3, en.val, vr);
      CleanStore(funcs, st4, SETI, dest, kr, vr);
      CleanFree2(funcs, Emit(st4, MakeABC(SETI, dest, kr, vr)), kr, vr);
    }
  }

  // ---- statements ----

  lemma {:induction false} CleanStmts(funcs: seq<FuncDecl>, st: CS, ss: seq<Stmt>)
    requires NoTries(ss) && Clean(funcs, st)
    ensures Clean(funcs, CompileStmts(funcs, st, ss))
    decreases ss, 0
  {
    hide Clean, CompileStmt, NoTry;
    if ss != [] {
      CleanStmt(funcs, st, ss[0]);
      CleanStmts(funcs, CompileStmt(funcs, st, ss[0]), ss[1..]);
    }
  }

  lemma {:induction false} CleanBlock(funcs: seq<FuncDecl>, st: CS, ss: seq<Stmt>)
    requires NoTries(ss) && Clean(funcs, st)
    ensures Clean(funcs, CompileBlock(funcs, st, ss))
    decreases ss, 1
  {
    hide Clean, CompileStmts, NoTries;
    CleanStmts(funcs, st, ss);
    CleanSame(funcs, CompileStmts(funcs, st, ss), CompileBlock(funcs, st, ss));
  }

  /** An expression into a temporary, and one instruction that consumes it. */
  lemma CleanUse(funcs: seq<FuncDecl>, st: CS, e: Expr, op: Byte)
    requires Clean(funcs, st) && (op == RET || op == THROW)
    ensures var (st1, r) := Alloc(st);
      && Clean(funcs, CompileExpr(funcs, st1, e, r)) && Clean(funcs, Free(CompileExpr(funcs, st1, e, r), r))
      && Clean(funcs, Free(Emit(CompileExpr(funcs, st1, e, r), MakeABC(op, r, 0, 0)), r))
  {
    hide Clean, CompileExpr, Alloc, Free;
    var (st1, r) := Alloc(st);
    var st2 := CompileExpr(funcs, st1, e, r);
    CleanAlloc(funcs, st);
    CleanExpr(funcs, st1, e, r);
    CleanFree(funcs, st2, r);
    CleanStore(funcs, st2, op, r, 0, 0);
    CleanFree(funcs, Emit(st2, MakeABC(op, r, 0, 0)), r);
  }

  lemma CleanLeap(funcs: seq<FuncDecl>, st: CS, t: nat)
    requires Clean(funcs, st)
    ensures Clean(funcs, EmitJump(st, JMP, 0, t))
  {
    hide Clean, MakeAsBx, ToI16, Bare;
    var j := MakeAsBx(JMP, 0, ToI16(t - (|st.code| + 1)));
    JumpBare(j);
    CleanBare(funcs, st, j);
  }

  lemma CleanBreak(funcs: seq<FuncDecl>, st: CS)
    requires Clean(funcs, st)
    ensures Clean(funcs, EmitBreak(st))
  {
    hide Clean, MakeAsBx, Bare;
    var j := MakeAsBx(JMP, 0, 0);
    JumpBare(j);
    CleanBare(funcs, st, j);
    CleanSame(funcs, if st.loops == [] then st else Emit(st, j), EmitBreak(st));
  }

  lemma CleanContinue(funcs: seq<FuncDecl>, st: CS)
    requires Clean(funcs, st)
    ensures Clean(funcs, EmitContinue(st))
  {
    hide Clean, EmitJump;
    if st.loops == [] {
      CleanSame(funcs, st, EmitContinue(st));
    } else {
      CleanLeap(funcs, st, st.loops[|st.loops| - 1].cont);
    }
  }

  lemma {:induction false} CleanStmt(funcs: seq<FuncDecl>, st: CS, s: Stmt)
    requires NoTry(s) && Clean(funcs, st)
    ensures Clean(funcs, CompileStmt(funcs, st, s))
    decreases s, 2
  {
    hide Clean, CompileExpr, CompileBlock, CompileIf, CompileWhile, CompileSwitch, CompileAssign, EmitBreak,
      EmitContinue, Alloc, Free, NoTries, NoTryCases;
    match s
    case Block(ss) => CleanBlock(funcs, st, ss);
    case Let(name, e) =>
      var (st1, r) := Alloc(st);
      var st2 := CompileExpr(funcs, st1, e, r);
      CleanUse(funcs, st, e, RET);
      CleanSame(funcs, st2, st2.(locals := st2.locals[name := r]));
    case Assign(target, e) => CleanAssign(funcs, st, target, e);
    case ExprStmt(e) => CleanUse(funcs, st, e, RET);
    case Return(None) => CleanStore(funcs, st, RETN, 0, 0, 0);
    case Return(Some(e)) => CleanUse(funcs, st, e, RET);
    case If(_, _, _) => CleanIf(funcs, st, s);
    case While(_, _) => CleanWhile(funcs, st, s);
    case Break => CleanBreak(funcs, st);
    case Continue => CleanContinue(funcs, st);
    case Switch(_, _, _) => CleanSwitch(funcs, st, s);
    case Throw(e) => CleanUse(funcs, st, e, THROW);
  }

  lemma {:induction false} CleanAssign(funcs: seq<FuncDecl>, st: CS, target: Expr, e: Expr)
    requires Clean(funcs, st)
    ensures Clean(funcs, CompileAssign(funcs, st, target, e))
  {
    hide Clean, CompileExpr, Alloc, Free, Intern, EmitSetField, MakeABx;
    match target
    case Ident(name) =>
      if name in st.locals {
        CleanExpr(funcs, st, e, st.locals[name]);
      } else {
        var (st1, r) := Alloc(st);
        var st2 := CompileExpr(funcs, st1, e, r);
        var (st3, ki) := Intern(st2, CStr(name));
        CleanAlloc(funcs, st);
        CleanExpr(funcs, st1, e, r);
        CleanIntern(funcs, st2, CStr(name));
        CleanWide(funcs, st3, STOREG, r, ki);
        CleanFree(funcs, Emit(st3, MakeABx(STOREG, r, ki % 0x1_0000)), r);
      }
    case Index(x, i) => CleanAssignIndex(funcs, st, x, i, e);
    case Field(x, name) =>
      var (st1, obj) := Alloc(st);
      var st2 := CompileExpr(funcs, st1, x, obj);
      var (st3, val) := Alloc(st2);
      var st4 := CompileExpr(funcs, st3, e, val);
      CleanAlloc(funcs, st);
      CleanExpr(funcs, st1, x, obj);
      CleanAlloc(funcs, st2);
      CleanExpr(funcs, st3, e, val);
      CleanSetField(funcs, st4, name, obj, val);
      CleanFree2(funcs, EmitSetField(st4, name, obj, val), obj, val);
    case _ => CleanSame(funcs, st, st.(errs := st.errs + 1));
  }

  lemma {:induction false} CleanAssignIndex(funcs: seq<FuncDecl>, st: CS, x: Expr, i: Expr, e: Expr)
    requires Clean(funcs, st)
    ensures Clean(funcs, CompileAssign(funcs, st, Index(x, i), e))
  {
    hide Clean, CompileExpr, Alloc, Free;
    var (st1, obj) := Alloc(st);
    var st2 := CompileExpr(funcs, st1, x, obj);
    var (st3, idx) := Alloc(st2);
    var st4 := CompileExpr(funcs, st3, i, idx);
    var (st5, val) := Alloc(st4);
    var st6 := CompileExpr(funcs, st5, e, val);
    CleanAlloc(funcs, st);
    CleanExpr(funcs, st1, x, obj);
    CleanAlloc(funcs, st2);
    CleanExpr(funcs, st3, i, idx);
    CleanAlloc(funcs, st4);
    CleanExpr(funcs, st5, e, val);
    CleanStore(funcs, st6, SETI, obj, idx, val);
    CleanFree2(funcs, Emit(st6, MakeABC(SETI, obj, idx, val)), obj, idx);
    CleanFree(funcs, Free(Free(Emit(st6, MakeABC(SETI, obj, idx, val)), obj), idx), val);
  }

  lemma {:induction false} CleanIf(funcs: seq<FuncDecl>, st: CS, s: Stmt)
    requires s.If? && NoTry(s) && Clean(funcs, st)
    ensures Clean(funcs, CompileIf(funcs, st, s))
    decreases s, 1
  {
    hide Clean, CondJump, CompileBlock, CompileStmt, IfJoin, PatchSbx, SShape, Grows, Vm.IsJump, NoTries;
    var st1 := CondJump(funcs, st, s.cond);
    var st2 := CompileBlock(funcs, st1, s.thn);
    CleanCondJump(funcs, st, s.cond);
    CleanBlock(funcs, st1, s.thn);
    SShapeBlock(funcs, st1, s.thn);
    SShapeGrows(st1, st2);
    if s.els == None {
      StillThere(st1, st2, |st1.code| - 1);
      CleanPatch(funcs, st2, |st1.code| - 1, |st2.code| - |st1.code|);
    } else {
      var st3 := IfJoin(st1, st2);
      CleanJoin(funcs, st1, st2);
      if s.els.value.Block? || s.els.value.If? {
        var st4 := CompileStmt(funcs, st3, s.els.value);
        CleanStmt(funcs, st3, s.els.value);
        SShapeStmt(funcs, st3, s.els.value);
        SShapeGrows(st3, st4);
        StillThere(st3, st4, |st2.code|);
        CleanPatch(funcs, st4, |st2.code|, |st4.code| - |st2.code| - 1);
      } else {
        CleanPatch(funcs, st3, |st2.code|, |st3.code| - |st2.code| - 1);
      }
    }
  }

  lemma {:induction false} CleanWhile(funcs: seq<FuncDecl>, st: CS, s: Stmt)
    requires s.While? && NoTry(s) && Clean(funcs, st)
    ensures Clean(funcs, CompileWhile(funcs, st, s))
    decreases s, 1
  {
    hide Clean, CondJump, CompileBlock, PatchSbx, SShape, Grows, Vm.IsJump, NoTries, PopLoop, EmitJump;
    var st0 := st.(loops := st.loops + [Loop([], |st.code|)]);
    var st1 := CondJump(funcs, st0, s.cond);
    var b := CompileBlock(funcs, st1, s.body);
    var st2 := EmitJump(b, JMP, 0, |st.code|);
    var p := PatchSbx(st2, |st1.code| - 1, |st2.code| - |st1.code|);
    assert CompileWhile(funcs, st, s) == PopLoop(p, |st2.code|);
    CleanSame(funcs, st, st0);
    CleanCondJump(funcs, st0, s.cond);
    CleanBlock(funcs, st1, s.body);
    SShapeBlock(funcs, st1, s.body);
    SShapeGrows(st1, b);
    WhileTurn(funcs, st1, b, st2, |st.code|);
    CleanPop(funcs, st1, b, st2, |st1.code| - 1, |st2.code| - |st1.code|, |st2.code|);
  }

  lemma WhileTurn(funcs: seq<FuncDecl>, st1: CS, b: CS, st2: CS, t: nat)
    requires Clean(funcs, b) && Grows(st1, b) && st1.code != [] && Vm.IsJump(st1.code[|st1.code| - 1].op)
      && st2 == EmitJump(b, JMP, 0, t)
    ensures Clean(funcs, st2) && Grows(b, st2) && st2.loops == b.loops && |st1.code| <= |st2.code|
      && Vm.IsJump(st2.code[|st1.code| - 1].op)
  {
    hide Clean, MakeAsBx, ToI16, Vm.IsJump;
    CleanLeap(funcs, b, t);
  }

  /** The breaks of the loop wait as jumps. */
  lemma CleanPop(funcs: seq<FuncDecl>, st1: CS, b: CS, st2: CS, ip: int, off: int, end: nat)
    requires SShape(st1, b) && Breaks(st1) == [] && st1.loops != [] && Clean(funcs, st2) && Grows(b, st2)
      && st2.loops == b.loops
    requires 0 <= ip < |st2.code| && Vm.IsJump(st2.code[ip].op)
    ensures Clean(funcs, PopLoop(PatchSbx(st2, ip, off), end))
  {
    hide Clean, PatchSbx, Inv, Keeps, PatchAll, PopLoop;
    var p := PatchSbx(st2, ip, off);
    CleanPatch(funcs, st2, ip, off);
    PatchLoops(st2, ip, off);
    FirstBreaks(st1, b);
    PopIs(b, p, end);
    var q := p.(loops := p.loops[..|p.loops| - 1]);
    CleanSame(funcs, p, q);
    CleanPatchAll(funcs, q, Breaks(b), end);
  }

  lemma PatchLoops(st: CS, ip: int, off: int)
    ensures PatchSbx(st, ip, off).loops == st.loops
  {
  }

  lemma {:induction false} CleanSwitch(funcs: seq<FuncDecl>, st: CS, s: Stmt)
    requires s.Switch? && NoTry(s) && Clean(funcs, st)
    ensures Clean(funcs, CompileSwitch(funcs, st, s))
    decreases s, 1
  {
    hide Clean, CompileExpr, CompileCases, CompileBlock, Alloc, Free, PatchAll, SShape, Grows, NoTries, NoTryCases;
    var (st1, tr) := Alloc(st);
    var st2 := CompileExpr(funcs, st1, s.tag, tr);
    var (st3, ends) := CompileCases(funcs, st2, s.cases, tr);
    var st4 := if s.default.Default? then CompileBlock(funcs, st3, s.default.body) else st3;
    CleanAlloc(funcs, st);
    CleanExpr(funcs, st1, s.tag, tr);
    CleanCases(funcs, st2, s.cases, tr);
    SShapeCases(funcs, st2, s.cases, tr);
    SShapeRefl(st3);
    if s.default.Default? {
      CleanBlock(funcs, st3, s.default.body);
      SShapeBlock(funcs, st3, s.default.body);
    }
    SShapeGrows(st3, st4);
    forall i | i in ends
      ensures 0 <= i < |st4.code| && Vm.IsJump(st4.code[i].op)
    {
      StillThere(st3, st4, i);
    }
    CleanPatchAll(funcs, st4, ends, |st4.code|);
    CleanFree(funcs, PatchAll(st4, ends, |st4.code|), tr);
  }

  lemma {:induction false} CleanCases(funcs: seq<FuncDecl>, st: CS, cases: seq<Case>, tag: Byte)
    requires NoTryCases(cases) && Clean(funcs, st)
    ensures Clean(funcs, CompileCases(funcs, st, cases, tag).0)
    decreases cases, 0
  {
    hide Clean, CompileCase, NoTries;
    if cases != [] {
      CleanCase(funcs, st, cases[0], tag);
      CleanCases(funcs, CompileCase(funcs, st, cases[0], tag).0, cases[1..], tag);
    }
  }

  lemma {:induction false} CleanCase(funcs: seq<FuncDecl>, st: CS, c: Case, tag: Byte)
    requires NoTries(c.body) && Clean(funcs, st)
    ensures Clean(funcs, CompileCase(funcs, st, c, tag).0)
    decreases c, 0
  {
    hide Clean, CaseFront, CompileBlock, IfJoin, SShape, Grows, Vm.IsJump, NoTries;
    var st1 := CaseFront(funcs, st, c.values, tag);
    var st2 := CompileBlock(funcs, st1, c.body);
    CleanFront(funcs, st, c.values, tag);
    CleanBlock(funcs, st1, c.body);
    SShapeBlock(funcs, st1, c.body);
    SShapeGrows(st1, st2);
    CleanJoin(funcs, st1, st2);
  }

  lemma {:induction false} CleanFront(funcs: seq<FuncDecl>, st: CS, values: seq<Expr>, tag: Byte)
    requires Clean(funcs, st)
    ensures var st1 := CaseFront(funcs, st, values, tag);
      Clean(funcs, st1) && st1.code != [] && Vm.IsJump(st1.code[|st1.code| - 1].op)
  {
    hide Clean, CompileMatch, Alloc, MakeAsBx, Bare;
    var (st1, m) := Alloc(st);
    var st2 := CompileMatch(funcs, Emit(st1, MakeABC(LOADB, m, 0, 0)), values, tag, m);
    var j := MakeAsBx(JF, m, 0);
    CleanAlloc(funcs, st);
    CleanStore(funcs, st1, LOADB, m, 0, 0);
    CleanMatch(funcs, Emit(st1, MakeABC(LOADB, m, 0, 0)), values, tag, m);
    JumpBare(j);
    CleanBare(funcs, st2, j);
    CleanFree(funcs, Emit(st2, j), m);
  }

  lemma {:induction false} CleanMatch(funcs: seq<FuncDecl>, st: CS, values: seq<Expr>, tag: Byte, m: Byte)
    requires Clean(funcs, st)
    ensures Clean(funcs, CompileMatch(funcs, st, values, tag, m))
    decreases |values|
  {
    hide Clean, CompileTest;
    if values != [] {
      CleanTest(funcs, st, values[0], tag, m);
      CleanMatch(funcs, CompileTest(funcs, st, values[0], tag, m), values[1..], tag, m);
    }
  }

  lemma {:induction false} CleanTest(funcs: seq<FuncDecl>, st: CS, v: Expr, tag: Byte, m: Byte)
    requires Clean(funcs, st)
    ensures Clean(funcs, CompileTest(funcs, st, v, tag, m))
  {
    hide Clean, CompileExpr, Alloc, Free, EmitTest;
    var (st1, vr) := Alloc(st);
    var st2 := CompileExpr(funcs, st1, v, vr);
    var (st3, eq) := Alloc(st2);
    CleanAlloc(funcs, st);
    CleanExpr(funcs, st1, v, vr);
    CleanAlloc(funcs, st2);
    TestClean(funcs, st3, tag, m, vr, eq);
    CleanFree2(funcs, EmitTest(st3, tag, m, vr, eq), vr, eq);
  }

  lemma TestClean(funcs: seq<FuncDecl>, st: CS, tag: Byte, m: Byte, vr: Byte, eq: Byte)
    requires Clean(funcs, st)
    ensures Clean(funcs, EmitTest(st, tag, m, vr, eq))
  {
    hide Clean, MakeAsBx, Bare, PatchSbx;
    var st1 := Emit(st, MakeABC(EQ, eq, tag, vr));
    var j := MakeAsBx(JT, m, 0);
    CleanStore(funcs, st, EQ, eq, tag, vr);
    JumpBare(j);
    CleanBare(funcs, st1, j);
    CleanStore(funcs, Emit(st1, j), MOVE, m, eq, 0);
    CleanPatch(funcs, Emit(Emit(st1, j), MakeABC(MOVE, m, eq, 0)), |st1.code|, 1);
  }

  lemma {:induction false} BodyClean(funcs: seq<FuncDecl>, pool: seq<Constant>, f: FuncDecl)
    requires NoTries(f.body)
    ensures Clean(funcs, CompileBody(funcs, pool, f))
  {
    hide CompileBlock, NoTries;
    assert Clean(funcs, InitCS(pool, f.params));
    hide Clean, InitCS;
    CleanBlock(funcs, InitCS(pool, f.params), f.body);
    CleanStore(funcs, CompileBlock(funcs, InitCS(pool, f.params), f.body), RETN, 0, 0, 0);
  }
}
