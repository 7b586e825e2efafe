/**
 What compiling changes in the compiler's state: code only grows, except for the jumps still to be patched; the pool
 only grows; registers in use stay in use, and registers handed out are not in use.
 */
module CompilerShape {
  import opened Bytecode
  import opened Ast
  import opened Compiler

  /** Register q is in use: handed out and not on the free list. */
  ghost predicate Held(st: CS, q: int) { 0 <= q < st.next && q !in st.free }

  /** The allocator's invariant. */
  ghost predicate Inv(st: CS) {
    && (forall i, j :: 0 <= i < j < |st.free| ==> st.free[i] != st.free[j])
    && (forall i :: 0 <= i < |st.free| ==> 0 <= st.free[i] < st.next)
    && (forall x :: x in st.locals ==> Held(st, st.locals[x]))
    && st.next <= st.peak
  }

  /** No register overflow so far, no key beyond the first 256 constants, no error so far. */
  ghost predicate Fine(st: CS) { st.errs == 0 && st.peak <= 254 && st.keys <= 255 }

  ghost predicate Keeps(st: CS, st': CS) { forall q :: Held(st, q) ==> Held(st', q) }

  /** What every step of the compiler keeps. */
  ghost predicate Grows(st: CS, st': CS) {
    && st.code <= st'.code
    && st.pool <= st'.pool
    && st.peak <= st'.peak && st.keys <= st'.keys
    && st.errs <= st'.errs
  }

  /** What compiling an expression keeps besides. */
  ghost predicate Level(st: CS, st': CS) { st'.loops == st.loops && st'.locals == st.locals }

  ghost predicate Shape(st: CS, st': CS) {
    && Grows(st, st')
    && Level(st, st')
    && (Inv(st) && Fine(st') ==> Inv(st') && Keeps(st, st'))
  }

  lemma ShapeTrans(a: CS, b: CS, c: CS)
    requires Shape(a, b) && Shape(b, c)
    ensures Shape(a, c)
  {
  }

  lemma ShapeLocals(a: CS, b: CS)
    requires Shape(a, b)
    ensures b.locals == a.locals
  {
  }

  lemma ShapeLen(a: CS, b: CS)
    requires Shape(a, b)
    ensures |a.code| <= |b.code|
  {
  }

  lemma ShapeEmit(st: CS, ins: Instr)
    ensures Shape(st, Emit(st, ins))
  {
  }

  lemma ShapeIntern(st: CS, k: Constant)
    ensures Shape(st, Intern(st, k).0)
  {
  }

  lemma ShapeAlloc(st: CS)
    ensures var (st1, r) := Alloc(st);
      Shape(st, st1) && st1.code == st.code && st1.pool == st.pool
      && (Inv(st) && Fine(st1) ==> !Held(st, r) && Held(st1, r) && r !in st.locals.Values)
  {
    var (st1, r) := Alloc(st);
    if Inv(st) && Fine(st1) && st.free != [] {
      assert st.free[|st.free| - 1] % 0x100 == st.free[|st.free| - 1];
      assert forall q :: q in st1.free ==> q in st.free;
      assert r in st.free && r !in st1.free;
    }
  }

  /** Freeing a register in use that is no local takes it, and only it, out of use. */
  lemma ShapeFree(st: CS, r: Byte)
    ensures Grows(st, Free(st, r)) && Level(st, Free(st, r)) && Free(st, r).code == st.code
    ensures Inv(st) && Held(st, r) ==> Inv(Free(st, r)) && forall q :: Held(st, q) && q != r ==> Held(Free(st, r), q)
  {
  }

  /** A register allocated inside, used, and freed at the end. */
  lemma ShapeScoped(st: CS, st1: CS, r: Byte, st2: CS)
    requires (st1, r) == Alloc(st) && Shape(st1, st2)
    ensures Shape(st, Free(st2, r))
  {
    ShapeAlloc(st);
    ShapeFree(st2, r);
  }

  lemma ShapePatch(st: CS, st2: CS, ip: int, off: int)
    requires Shape(st, st2) && |st.code| <= ip
    ensures Shape(st, PatchSbx(st2, ip, off))
    ensures |PatchSbx(st2, ip, off).code| == |st2.code|
  {
  }

  lemma ShapeReserve(st: CS, n: nat)
    ensures Shape(st, Reserve(st, n)) && Shape(st, NoteRegs(Reserve(st, n)))
    ensures Inv(st) ==> forall q :: st.next <= q < st.next + n ==> !Held(st, q) && Held(Reserve(st, n), q)
    ensures Inv(st) ==> forall q :: st.next <= q < st.next + n ==> q !in st.locals.Values
  {
    if Inv(st) {
      forall q | st.next <= q < st.next + n
        ensures q !in st.free && q !in st.locals.Values
      {
      }
    }
  }

  lemma ShapeReserveRun(st: CS, n: nat)
    ensures var st1 := NoteRegs(Reserve(st, n));
      && Grows(st, st1) && Level(st, st1) && st1.code == st.code && st1.pool == st.pool
      && (Inv(st) && Fine(st1) ==>
        Inv(st1) && Keeps(st, st1) && FreshRun(st, st1, st.next % 0x100, n) && st.next % 0x100 == st.next
          && st.next + n <= 254)
  {
    ShapeReserve(st, n);
  }

  lemma FreeRunIs(st: CS, base: Byte, n: nat)
    requires n > 0 && base + n <= 0x100
    ensures FreeRun(st, base, n) == Free(FreeRun(st, base, n - 1), base + n - 1)
  {
    hide Free;
  }

  /** Freeing a run of registers in use takes out of use nothing else. */
  lemma {:induction false} FreeRunHeld(st: CS, base: Byte, n: nat)
    requires base + n <= 0x100 && Inv(st) && forall q :: base <= q < base + n ==> Held(st, q)
    ensures Inv(FreeRun(st, base, n)) && forall q :: Held(st, q) && !(base <= q < base + n) ==>
      Held(FreeRun(st, base, n), q)
    decreases n
  {
    hide Inv;
    hide Held;
    hide Free;
    if n > 0 {
      FreeRunHeld(st, base, n - 1);
      FreeRunIs(st, base, n);
      ShapeFree(FreeRun(st, base, n - 1), base + n - 1);
    }
  }

  lemma ShapeFreeRun(st: CS, base: Byte, n: nat)
    requires base + n <= 0x100
    ensures Grows(st, FreeRun(st, base, n)) && Level(st, FreeRun(st, base, n)) && FreeRun(st, base, n).code == st.code
    ensures FreeRun(st, base, n).next == st.next
    ensures Inv(st) && (forall q :: base <= q < base + n ==> Held(st, q)) ==>
      Inv(FreeRun(st, base, n)) && forall q :: Held(st, q) && !(base <= q < base + n) ==> Held(FreeRun(st, base, n), q)
  {
    FreeRunCode(st, base, n);
    hide Inv;
    hide Held;
    hide FreeRun;
    if Inv(st) && forall q :: base <= q < base + n ==> Held(st, q) {
      FreeRunHeld(st, base, n);
    }
  }

  /** Registers base .. base+n-1 are fresh: newly in use, and no local's. */
  ghost predicate FreshRun(st: CS, st': CS, base: Byte, n: nat) {
    forall q :: base <= q < base + n ==> !Held(st, q) && Held(st', q) && q !in st.locals.Values
  }

  lemma {:induction false} ShapeExtendRun(st0: CS, st: CS, base: Byte, i: nat, n: nat)
    requires 1 <= i <= n && Shape(st0, st) && st.code == st0.code && st.pool == st0.pool
    requires Inv(st0) && Fine(st) ==> FreshRun(st0, st, base, i)
    ensures var (st', got) := ExtendRun(st, base, i, n);
      && i <= got <= n && Shape(st0, st') && st'.code == st0.code && st'.pool == st0.pool
      && (Inv(st0) && Fine(st') ==> FreshRun(st0, st', base, got) && base + got <= 254)
    decreases n - i
  {
    if i < n {
      ShapeAlloc(st);
      var (st1, r) := Alloc(st);
      if r == (base + i) % 0x100 {
        if Inv(st0) && Fine(st1) {
          assert Held(st, base + (i - 1));
          assert FreshRun(st0, st1, base, i + 1);
        }
        ShapeExtendRun(st0, st1, base, i + 1, n);
      } else if Inv(st0) && Fine(st1) {
        assert Held(st, base + (i - 1));
      }
    } else if Inv(st0) && Fine(st) {
      assert Held(st, base + (i - 1));
    }
  }

  lemma ShapeAllocRun(st: CS, n: nat)
    requires n > 0
    ensures var (st', base, got) := AllocRun(st, n);
      && 1 <= got <= n && Shape(st, st') && st'.code == st.code && st'.pool == st.pool
      && (Inv(st) && Fine(st') ==> FreshRun(st, st', base, got) && base + got <= 254)
  {
    ShapeAlloc(st);
    var (st1, base) := Alloc(st);
    assert Inv(st) && Fine(st1) ==> FreshRun(st, st1, base, 1);
    ShapeExtendRun(st, st1, base, 1, n);
  }

  lemma FreshLater(st: CS, st2: CS, st': CS, base: Byte, n: nat)
    requires Keeps(st, st2) && FreshRun(st2, st', base, n) && st.locals == st2.locals
    ensures FreshRun(st, st', base, n)
  {
    hide Held;
  }

  /** The run broke off: what it had obtained is freed, and fresh registers are taken. */
  lemma ArrayFails(st: CS, st1: CS, base: Byte, got: nat, n: nat)
    requires Inv(st) && Inv(st1) && Keeps(st, st1) && FreshRun(st, st1, base, got) && base + got <= 254
      && st1.locals == st.locals
    requires var st' := Reserve(FreeRun(st1, base, got), n); Fine(st')
    ensures var st' := Reserve(FreeRun(st1, base, got), n);
      Inv(st') && Keeps(st, st') && FreshRun(st, st', st1.next % 0x100, n) && st1.next % 0x100 + n <= 254
  {
    var st2 := FreeRun(st1, base, got);
    FreeRunCode(st1, base, got);
    FreeRunHeld(st1, base, got);
    hide FreeRun;
    ShapeReserve(st2, n);
    assert Keeps(st, st2);
    assert FreshRun(st2, Reserve(st2, n), st1.next % 0x100, n);
    FreshLater(st, st2, Reserve(st2, n), st1.next % 0x100, n);
  }

  lemma ShapeArrayRegs(st: CS, n: nat)
    requires n > 0
    ensures var (st', base) := ArrayRegs(st, n);
      && Grows(st, st') && Level(st, st') && st'.code == st.code && st'.pool == st.pool
      && (Inv(st) && Fine(st') ==> Inv(st') && Keeps(st, st') && FreshRun(st, st', base, n) && base + n <= 254)
  {
    hide Inv;
    hide Keeps;
    hide FreshRun;
    hide AllocRun;
    ShapeAllocRun(st, n);
    var (st1, base, got) := AllocRun(st, n);
    if got < n {
      FreeRunCode(st1, base, got);
      hide FreeRun;
      if Inv(st) && Fine(Reserve(FreeRun(st1, base, got), n)) {
        ArrayFails(st, st1, base, got, n);
      }
    }
  }

  /** Freeing never touches what Grows speaks of, however the registers lie. */
  lemma {:induction false} FreeRunCode(st: CS, base: Byte, n: nat)
    ensures var st' := FreeRun(st, base, n);
      st'.code == st.code && st'.pool == st.pool && st'.peak == st.peak && st'.keys == st.keys && st'.errs == st.errs
        && st'.loops == st.loops
      && st'.locals == st.locals && st'.next == st.next
    decreases n
  {
    if n > 0 {
      FreeRunCode(st, base, n - 1);
    }
  }

  // ---- expressions ----

  lemma ShapeLoadConst(st: CS, k: Constant, dest: Byte)
    ensures Shape(st, LoadConst(st, k, dest))
  {
    ShapeIntern(st, k);
    ShapeEmit(Intern(st, k).0, MakeABx(LOADK, dest, Intern(st, k).1 % 0x1_0000));
  }

  lemma ShapeIdent(funcs: seq<FuncDecl>, st: CS, name: Text, dest: Byte)
    ensures Shape(st, CompileIdent(funcs, st, name, dest))
  {
    ShapeIntern(st, CStr(name));
    hide Intern;
  }

  lemma ShapeNote(st: CS, ki: nat)
    ensures Shape(st, NoteKey(st, ki))
  {
  }

  lemma ShapeGetField(st: CS, name: Text, dest: Byte, obj: Byte)
    ensures Shape(st, EmitGetField(st, name, dest, obj))
  {
    hide Shape, Intern, NoteKey, Alloc, Free, MakeABx;
    var (st0, ki) := Intern(st, CStr(name));
    var st1 := NoteKey(st0, ki);
    ShapeIntern(st, CStr(name));
    ShapeNote(st0, ki);
    ShapeTrans(st, st0, st1);
    if ki <= 255 {
      ShapeEmit(st1, MakeABC(GETK, dest, obj, ki));
    } else {
      ShapeWide(st1, ki, (kr: Byte) => MakeABC(GETI, dest, obj, kr));
    }
    ShapeTrans(st, st1, EmitGetField(st, name, dest, obj));
  }

  /** A key that does not fit goes through a register. */
  lemma ShapeWide(st: CS, ki: nat, ins: Byte -> Instr)
    ensures var (st2, kr) := Alloc(st); Shape(st, Free(Emit(Emit(st2, MakeABx(LOADK, kr, ki % 0x1_0000)), ins(kr)), kr))
  {
    hide Shape, Alloc, Free, MakeABx, Emit;
    var (st2, kr) := Alloc(st);
    var st3 := Emit(st2, MakeABx(LOADK, kr, ki % 0x1_0000));
    ShapeEmit(st2, MakeABx(LOADK, kr, ki % 0x1_0000));
    ShapeEmit(st3, ins(kr));
    ShapeTrans(st2, st3, Emit(st3, ins(kr)));
    ShapeScoped(st, st2, kr, Emit(st3, ins(kr)));
  }

  lemma ShapeSetKey(st: CS, ki: nat, obj: Byte, val: Byte)
    ensures Shape(st, EmitSetKey(st, ki, obj, val))
  {
    hide Shape, NoteKey, Alloc, Free, MakeABx;
    var st1 := NoteKey(st, ki);
    ShapeNote(st, ki);
    if ki <= 255 {
      ShapeEmit(st1, MakeABC(SETK, obj, ki, val));
    } else {
      ShapeWide(st1, ki, (kr: Byte) => MakeABC(SETI, obj, kr, val));
    }
    ShapeTrans(st, st1, EmitSetKey(st, ki, obj, val));
  }

  /** Two registers allocated one after the other, with code between, both freed at the end. */
  lemma ShapeScoped2(st: CS, st1: CS, r1: Byte, st2: CS, st3: CS, r2: Byte, st4: CS)
    requires (st1, r1) == Alloc(st) && Shape(st1, st2) && (st3, r2) == Alloc(st2) && Shape(st3, st4)
    ensures Shape(st, Free(Free(st4, r1), r2))
  {
    ShapeAlloc(st);
    ShapeAlloc(st2);
    ShapeFree(st4, r1);
    ShapeFree(Free(st4, r1), r2);
    hide Alloc;
    hide Free;
  }

  lemma {:induction false} ShapeExpr(funcs: seq<FuncDecl>, st: CS, e: Expr, dest: Byte)
    ensures Shape(st, CompileExpr(funcs, st, e, dest))
    decreases e, 2
  {
    hide CompileBinary;
    hide CompileTernary;
    hide CompileCall;
    hide CompileArray;
    hide CompileEntries;
    hide CompileLiteral;
    hide CompileIdent;
    hide EmitGetField;
    match e
    case Lit(lit) =>
      ShapeLiteral(st, lit, dest);
    case Ident(name) => ShapeIdent(funcs, st, name, dest);
    case Unary(op, x) =>
      var (st1, tmp) := Alloc(st);
      var st2 := CompileExpr(funcs, st1, x, tmp);
      ShapeExpr(funcs, st1, x, tmp);
      ShapeEmit(st2, MakeABC(UnOpcode(op), dest, tmp, 0));
      ShapeScoped(st, st1, tmp, Emit(st2, MakeABC(UnOpcode(op), dest, tmp, 0)));
    case Binary(op, l, r) => ShapeBinary(funcs, st, e, dest);
    case Ternary(c, t, f) => ShapeTernary(funcs, st, e, dest);
    case Call(f, args) => ShapeCall(funcs, st, e, dest);
    case Index(x, i) =>
      var (st1, obj) := Alloc(st);
      var st2 := CompileExpr(funcs, st1, x, obj);
      var (st3, idx) := Alloc(st2);
      var st4 := CompileExpr(funcs, st3, i, idx);
      ShapeExpr(funcs, st1, x, obj);
      ShapeExpr(funcs, st3, i, idx);
      ShapeEmit(st4, MakeABC(GETI, dest, obj, idx));
      ShapeScoped2(st, st1, obj, st2, st3, idx, Emit(st4, MakeABC(GETI, dest, obj, idx)));
    case Field(x, name) =>
      var (st1, obj) := Alloc(st);
      var st2 := CompileExpr(funcs, st1, x, obj);
      ShapeExpr(funcs, st1, x, obj);
      ShapeGetField(st2, name, dest, obj);
      ShapeScoped(st, st1, obj, EmitGetField(st2, name, dest, obj));
    case ArrayLit(es) => ShapeArray(funcs, st, e, dest);
    case MapLit(entries) =>
      var st1 := Emit(st, MakeABC(NEWMAP, dest, 0, 0));
      ShapeEmit(st, MakeABC(NEWMAP, dest, 0, 0));
      ShapeEntries(funcs, st1, entries, dest);
      ShapeTrans(st, st1, CompileEntries(funcs, st1, entries, dest));
  }

  lemma ShapeLiteral(st: CS, lit: Literal, dest: Byte)
    ensures Shape(st, CompileLiteral(st, lit, dest))
  {
    hide TernaryFront;
    hide CompileExpr;
    hide PatchSbx;
    match lit
    case LNull => ShapeEmit(st, MakeABC(LOADN, dest, 0, 0));
    case LBool(b) => ShapeEmit(st, MakeABC(LOADB, dest, if b then 1 else 0, 0));
    case LInt(i) =>
      if -0x8000 <= i < 0x8000 { ShapeEmit(st, MakeAsBx(LOADI, dest, i)); } else { ShapeLoadConst(st, CInt(i), dest); }
    case LFloat(bits) => ShapeLoadConst(st, CFloat(bits), dest);
    case LStr(s) => ShapeLoadConst(st, CStr(s), dest);
  }

  lemma {:induction false} ShapeBinary(funcs: seq<FuncDecl>, st: CS, e: Expr, dest: Byte)
    requires e.Binary?
    ensures Shape(st, CompileBinary(funcs, st, e, dest))
    decreases e, 0
  {
    hide CompileExpr;
    var op, l, r := e.op, e.left, e.right;
    if op == AndAnd || op == OrOr {
      var st1 := CompileExpr(funcs, st, l, dest);
      var ins := MakeAsBx(if op == AndAnd then JF else JT, dest, 0);
      var st2 := CompileExpr(funcs, Emit(st1, ins), r, dest);
      ShapeExpr(funcs, st, l, dest);
      ShapeEmit(st1, ins);
      ShapeExpr(funcs, Emit(st1, ins), r, dest);
      ShapeTrans(st, st1, Emit(st1, ins));
      ShapeTrans(st, Emit(st1, ins), st2);
      ShapePatch(st, st2, |st1.code|, |st2.code| - |st1.code| - 1);
    } else {
      var (st1, lr) := Alloc(st);
      var (st2, rr) := Alloc(st1);
      var st3 := CompileExpr(funcs, st2, l, lr);
      var st4 := CompileExpr(funcs, st3, r, rr);
      var st5 := Emit(st4, MakeABC(BinOpcode(op), dest, lr, rr));
      ShapeExpr(funcs, st2, l, lr);
      ShapeExpr(funcs, st3, r, rr);
      ShapeTrans(st2, st3, st4);
      ShapeEmit(st4, MakeABC(BinOpcode(op), dest, lr, rr));
      ShapeTrans(st2, st4, st5);
      ShapeTrans(st1, st1, st1);
      ShapeScoped2(st, st1, lr, st1, st2, rr, st5);
    }
  }

  lemma {:induction false} ShapeTernary(funcs: seq<FuncDecl>, st: CS, e: Expr, dest: Byte)
    requires e.Ternary?
    ensures Shape(st, CompileTernary(funcs, st, e, dest))
    decreases e, 1
  {
    hide Shape;
    hide PatchSbx;
    hide TernaryFront;
    hide CompileExpr;
    var st1 := TernaryFront(funcs, st, e, dest);
    var st2 := CompileExpr(funcs, st1, e.els, dest);
    ShapeTernaryFront(funcs, st, e, dest);
    ShapeExpr(funcs, st1, e.els, dest);
    ShapeTrans(st, st1, st2);
    ShapePatch(st, st2, |st1.code| - 1, |st2.code| - |st1.code|);
    assert CompileTernary(funcs, st, e, dest) == PatchSbx(st2, |st1.code| - 1, |st2.code| - |st1.code|);
  }

  lemma {:induction false} ShapeCondJump(funcs: seq<FuncDecl>, st: CS, c: Expr)
    ensures Shape(st, CondJump(funcs, st, c))
    ensures |st.code| < |CondJump(funcs, st, c).code|
    decreases c, 3
  {
    hide CompileExpr;
    hide Alloc;
    hide MakeAsBx;
    var (st1, cr) := Alloc(st);
    var st2 := CompileExpr(funcs, st1, c, cr);
    var st3 := Emit(st2, MakeAsBx(JF, cr, 0));
    assert CondJump(funcs, st, c) == Free(st3, cr);
    assert |Free(st3, cr).code| == |st2.code| + 1;
    hide Free;
    hide CondJump;
    hide Shape;
    ShapeExpr(funcs, st1, c, cr);
    ShapeEmit(st2, MakeAsBx(JF, cr, 0));
    ShapeTrans(st1, st2, st3);
    ShapeScoped(st, st1, cr, st3);
    ShapeAlloc(st);
    ShapeLen(st, st1);
    ShapeLen(st1, st2);
  }

  lemma {:induction false} ShapeTernaryFront(funcs: seq<FuncDecl>, st: CS, e: Expr, dest: Byte)
    requires e.Ternary?
    ensures Shape(st, TernaryFront(funcs, st, e, dest))
    ensures |st.code| < |TernaryFront(funcs, st, e, dest).code|
    decreases e, 0
  {
    hide CompileExpr;
    hide PatchSbx;
    hide CondJump;
    hide MakeAsBx;
    var st1 := CondJump(funcs, st, e.cond);
    var st2 := CompileExpr(funcs, st1, e.thn, dest);
    var st3 := Emit(st2, MakeAsBx(JMP, 0, 0));
    assert TernaryFront(funcs, st, e, dest) == PatchSbx(st3, |st1.code| - 1, |st2.code| + 1 - |st1.code|);
    hide TernaryFront;
    hide Shape;
    ShapeCondJump(funcs, st, e.cond);
    ShapeExpr(funcs, st1, e.thn, dest);
    ShapeEmit(st2, MakeAsBx(JMP, 0, 0));
    ShapeTrans(st, st1, st2);
    ShapeTrans(st, st2, st3);
    ShapeLen(st1, st2);
    ShapePatch(st, st3, |st1.code| - 1, |st2.code| + 1 - |st1.code|);
  }

  lemma {:induction false} ShapeCall(funcs: seq<FuncDecl>, st: CS, e: Expr, dest: Byte)
    requires e.Call?
    ensures Shape(st, CompileCall(funcs, st, e, dest))
    decreases e, 0
  {
    var n := |e.args|;
    var base := st.next % 0x100;
    var st1 := NoteRegs(Reserve(st, n + 1));
    var st2 := CompileExpr(funcs, st1, e.fun, base);
    var st3 := CompileList(funcs, st2, e.args, base + 1);
    var st4 := Emit(st3, MakeABC(CALL, dest, base, n % 0x100));
    ShapeReserveRun(st, n + 1);
    hide CompileExpr;
    hide Inv;
    hide Keeps;
    hide FreshRun;
    hide FreeRun;
    ShapeExpr(funcs, st1, e.fun, base);
    ShapeList(funcs, st2, e.args, base + 1);
    ShapeEmit(st3, MakeABC(CALL, dest, base, n % 0x100));
    ShapeTrans(st1, st2, st3);
    ShapeTrans(st1, st3, st4);
    ShapeRun(st, st1, base, n + 1, st4);
  }

  /** A run of fresh registers, used and then freed. */
  lemma ShapeRun(st: CS, st1: CS, base: Byte, n: nat, st4: CS)
    requires Shape(st1, st4) && Grows(st, st1) && Level(st, st1)
    requires Inv(st) && Fine(st1) ==> Inv(st1) && Keeps(st, st1) && FreshRun(st, st1, base, n) && base + n <= 0x100
    ensures Shape(st, FreeRun(st4, base, n))
  {
    FreeRunCode(st4, base, n);
    if Inv(st) && Fine(st4) {
      ShapeFreeRun(st4, base, n);
    }
  }

  lemma {:induction false} ShapeArray(funcs: seq<FuncDecl>, st: CS, e: Expr, dest: Byte)
    requires e.ArrayLit?
    ensures Shape(st, CompileArray(funcs, st, e, dest))
    decreases e, 0
  {
    var n := |e.elts|;
    if n == 0 {
      ShapeEmit(st, MakeABC(NEWARR, dest, 0, 0));
      return;
    }
    var (st1, base) := ArrayRegs(st, n);
    var st2 := CompileList(funcs, st1, e.elts, base);
    var st3 := Emit(st2, MakeABC(NEWARR, dest, base, n % 0x100));
    ShapeArrayRegs(st, n);
    ShapeList(funcs, st1, e.elts, base);
    ShapeEmit(st2, MakeABC(NEWARR, dest, base, n % 0x100));
    ShapeTrans(st1, st2, st3);
    ShapeRun(st, st1, base, n, st3);
  }

  lemma {:induction false} ShapeList(funcs: seq<FuncDecl>, st: CS, es: seq<Expr>, base: nat)
    ensures Shape(st, CompileList(funcs, st, es, base))
    decreases es, 0
  {
    if es != [] {
      var st1 := CompileExpr(funcs, st, es[0], base % 0x100);
      ShapeExpr(funcs, st, es[0], base % 0x100);
      ShapeList(funcs, st1, es[1..], base + 1);
      ShapeTrans(st, st1, CompileList(funcs, st1, es[1..], base + 1));
    }
  }

  lemma {:induction false} ShapeEntries(funcs: seq<FuncDecl>, st: CS, entries: seq<Entry>, dest: Byte)
    ensures Shape(st, CompileEntries(funcs, st, entries, dest))
    decreases entries, 0
  {
    if entries != [] {
      var st1 := CompileEntry(funcs, st, entries[0], dest);
      ShapeEntry(funcs, st, entries[0], dest);
      ShapeEntries(funcs, st1, entries[1..], dest);
      ShapeTrans(st, st1, CompileEntries(funcs, st1, entries[1..], dest));
    }
  }

  lemma {:induction false} ShapeEntry(funcs: seq<FuncDecl>, st: CS, en: Entry, dest: Byte)
    ensures Shape(st, CompileEntry(funcs, st, en, dest))
    decreases en, 2
  {
    if en.key.Lit? && en.key.lit.LStr? {
      var (st1, ki) := Intern(st, CStr(en.key.lit.s));
      var (st2, vr) := Alloc(st1);
      var st3 := CompileExpr(funcs, st2, en.val, vr);
      ShapeIntern(st, CStr(en.key.lit.s));
      ShapeExpr(funcs, st2, en.val, vr);
      ShapeSetKey(st3, ki, dest, vr);
      ShapeTrans(st2, st3, EmitSetKey(st3, ki, dest, vr));
      ShapeScoped(st1, st2, vr, EmitSetKey(st3, ki, dest, vr));
      ShapeTrans(st, st1, Free(EmitSetKey(st3, ki, dest, vr), vr));
    } else {
      var (st1, kr) := Alloc(st);
      var st2 := CompileExpr(funcs, st1, en.key, kr);
      var (st3, vr) := Alloc(st2);
      var st4 := CompileExpr(funcs, st3, en.val, vr);
      ShapeExpr(funcs, st1, en.key, kr);
      ShapeExpr(funcs, st3, en.val, vr);
      ShapeEmit(st4, MakeABC(SETI, dest, kr, vr));
      ShapeScoped2(st, st1, kr, st2, st3, vr, Emit(st4, MakeABC(SETI, dest, kr, vr)));
    }
  }
}
