/** What compiling a statement changes in the compiler's state. */
module StmtShape {
  import opened Bytecode
  import opened Ast
  import opened Compiler
  import opened CompilerShape

  /** The jumps out of the innermost loop that still wait for its end. */
  function Breaks(st: CS): seq<int> { if st.loops == [] then [] else st.loops[|st.loops| - 1].breaks }

  /** Position i is a break of the innermost loop that was recorded between the two states. */
  ghost predicate NewBreak(st: CS, st': CS, i: int) {
    exists j :: |Breaks(st)| <= j < |Breaks(st')| && Breaks(st')[j] == i
  }

  /** A jump that waits for its target: patching keeps the opcode and A, and sets the offset. */
  predicate Pending(ins: Instr) { ins.op == JMP && ins.a == 0 }

  /** The loops are those at the start, with more breaks, all in the code compiled since. */
  ghost predicate LoopsGrow(st: CS, st': CS) {
    && |st'.loops| == |st.loops|
    && (forall i :: 0 <= i < |st.loops| - 1 ==> st'.loops[i] == st.loops[i])
    && (st.loops != [] ==> st'.loops[|st.loops| - 1].cont == st.loops[|st.loops| - 1].cont)
    && Breaks(st) <= Breaks(st')
    && (forall i :: NewBreak(st, st', i) ==> |st.code| <= i < |st'.code|)
  }

  /** Every break recorded between the two states is an unpatched jump in st'. */
  ghost predicate Waiting(st: CS, st': CS) {
    forall i :: NewBreak(st, st', i) && 0 <= i < |st'.code| ==> Pending(st'.code[i])
  }

  ghost predicate SShape(st: CS, st': CS) {
    && Grows(st, st')
    && LoopsGrow(st, st')
    && Waiting(st, st')
    && (Inv(st) && Fine(st') ==> Inv(st') && Keeps(st, st'))
  }

  lemma FromShape(st: CS, st': CS)
    requires Shape(st, st')
    ensures SShape(st, st') && st'.locals == st.locals
  {
  }

  lemma SShapeRefl(st: CS)
    ensures SShape(st, st)
  {
  }

  lemma BreakSplit(a: CS, b: CS, c: CS, i: int)
    requires LoopsGrow(a, b) && LoopsGrow(b, c)
    ensures NewBreak(a, c, i) <==> NewBreak(a, b, i) || NewBreak(b, c, i)
  {
    if NewBreak(a, c, i) {
      var j :| |Breaks(a)| <= j < |Breaks(c)| && Breaks(c)[j] == i;
      if j < |Breaks(b)| {
        assert Breaks(b)[j] == i;
      }
    }
    if NewBreak(a, b, i) {
      var j :| |Breaks(a)| <= j < |Breaks(b)| && Breaks(b)[j] == i;
      assert Breaks(c)[j] == i;
    }
  }

  lemma SShapeTrans(a: CS, b: CS, c: CS)
    requires SShape(a, b) && SShape(b, c)
    ensures SShape(a, c)
  {
    forall i
      ensures NewBreak(a, c, i) <==> NewBreak(a, b, i) || NewBreak(b, c, i)
    {
      BreakSplit(a, b, c, i);
    }
    hide Inv;
    hide Keeps;
    hide NewBreak;
    assert LoopsGrow(a, c);
    assert Waiting(a, c);
    assert Grows(a, c);
    if Inv(a) && Fine(c) {
      KeepsTrans(a, b, c);
    }
  }

  lemma KeepsTrans(a: CS, b: CS, c: CS)
    requires Keeps(a, b) && Keeps(b, c)
    ensures Keeps(a, c)
  {
  }

  /** Patching a jump that is no recorded break. */
  lemma SPatch(st: CS, c: CS, ip: int, off: int)
    requires SShape(st, c) && |st.code| <= ip && !NewBreak(st, c, ip)
    ensures SShape(st, PatchSbx(c, ip, off))
    ensures |PatchSbx(c, ip, off).code| == |c.code|
    ensures PatchSbx(c, ip, off).loops == c.loops && PatchSbx(c, ip, off).locals == c.locals
  {
    var d := PatchSbx(c, ip, off);
    assert Breaks(d) == Breaks(c);
    assert forall i :: NewBreak(st, d, i) <==> NewBreak(st, c, i);
    hide NewBreak;
    hide MakeAsBx;
  }

  /** Patching a jump in the code up to `b`. */
  lemma SShapePatch(st: CS, b: CS, c: CS, ip: int, off: int)
    requires SShape(st, b) && SShape(b, c) && |st.code| <= ip < |b.code| && !NewBreak(st, b, ip)
    ensures SShape(st, PatchSbx(c, ip, off))
    ensures |PatchSbx(c, ip, off).code| == |c.code|
    ensures PatchSbx(c, ip, off).loops == c.loops && PatchSbx(c, ip, off).locals == c.locals
  {
    SShapeTrans(st, b, c);
    BreakSplit(st, b, c, ip);
    NoBreak(b, c, ip);
    SPatch(st, c, ip, off);
  }

  lemma NoBreak(st: CS, b: CS, ip: int)
    requires Breaks(b) == Breaks(st) || (!(|st.code| <= ip < |b.code|) && LoopsGrow(st, b))
    ensures !NewBreak(st, b, ip)
  {
  }

  lemma {:induction false} PatchAllShape(st: CS, ips: seq<int>, target: nat)
    ensures var st' := PatchAll(st, ips, target);
      st' == st.(code := st'.code) && |st'.code| == |st.code|
      && forall i :: 0 <= i < |st.code| && i !in ips ==> st'.code[i] == st.code[i]
    decreases |ips|
  {
    if ips != [] {
      hide MakeAsBx;
      PatchAllShape(PatchSbx(st, ips[0], target - ips[0] - 1), ips[1..], target);
    }
  }

  /** Every waiting jump in the list ends up aimed at the target. */
  lemma {:induction false} PatchAllAims(st: CS, ips: seq<int>, target: nat, i: int)
    requires 0 <= i < |st.code| && i in ips
    requires st.code[i].op == JMP && st.code[i].a == 0
    ensures |PatchAll(st, ips, target).code| == |st.code|
    ensures PatchAll(st, ips, target).code[i] == MakeAsBx(JMP, 0, ToI16(target - i - 1))
    decreases |ips|
  {
    hide ToI16;
    var st1 := PatchSbx(st, ips[0], target - ips[0] - 1);
    assert i == ips[0] || i in ips[1..];
    if i in ips[1..] {
      PatchAllAims(st1, ips[1..], target, i);
    } else {
      PatchAllShape(st1, ips[1..], target);
    }
  }

  lemma SShapePatchAll(st: CS, c: CS, ips: seq<int>, target: nat)
    requires SShape(st, c)
    requires forall i :: i in ips ==> |st.code| <= i && !NewBreak(st, c, i)
    ensures SShape(st, PatchAll(c, ips, target))
  {
    PatchAllShape(c, ips, target);
    var d := PatchAll(c, ips, target);
    assert Breaks(d) == Breaks(c);
    assert forall i :: NewBreak(st, d, i) <==> NewBreak(st, c, i);
    hide NewBreak;
    hide PatchAll;
  }

  lemma SEmit(st: CS, ins: Instr)
    ensures SShape(st, Emit(st, ins)) && Emit(st, ins).locals == st.locals && Emit(st, ins).loops == st.loops
    ensures |Emit(st, ins).code| == |st.code| + 1
  {
    ShapeEmit(st, ins);
    FromShape(st, Emit(st, ins));
  }

  lemma SLen(a: CS, b: CS)
    requires SShape(a, b)
    ensures |a.code| <= |b.code|
  {
  }

  lemma SShapeScoped(st: CS, st1: CS, r: Byte, st2: CS)
    requires (st1, r) == Alloc(st) && SShape(st1, st2)
    ensures SShape(st, Free(st2, r))
  {
    ShapeAlloc(st);
    FromShape(st, st1);
    SShapeTrans(st, st1, st2);
    ShapeFree(st2, r);
    assert Breaks(Free(st2, r)) == Breaks(st2);
    assert forall i :: NewBreak(st, Free(st2, r), i) <==> NewBreak(st, st2, i);
    hide Alloc;
    hide Free;
    hide NewBreak;
  }

  /** Leaving a block. */
  lemma SShapeLeave(st: CS, st2: CS)
    requires SShape(st, st2)
    ensures SShape(st, st2.(locals := st.locals, next := st.next, free := []))
  {
    var d := st2.(locals := st.locals, next := st.next, free := []);
    assert Breaks(d) == Breaks(st2);
    assert forall i :: NewBreak(st, d, i) <==> NewBreak(st, st2, i);
    hide NewBreak;
  }

  lemma SShapeCondJump(funcs: seq<FuncDecl>, st: CS, c: Expr)
    ensures var st1 := CondJump(funcs, st, c);
      SShape(st, st1) && st1.locals == st.locals && Breaks(st1) == Breaks(st) && |st.code| < |st1.code|
  {
    ShapeCondJump(funcs, st, c);
    FromShape(st, CondJump(funcs, st, c));
  }

  lemma {:induction false} SShapeBlock(funcs: seq<FuncDecl>, st: CS, ss: seq<Stmt>)
    ensures SShape(st, CompileBlock(funcs, st, ss)) && CompileBlock(funcs, st, ss).locals == st.locals
    decreases ss, 1
  {
    hide SShape;
    hide CompileStmts;
    SShapeStmts(funcs, st, ss);
    SShapeLeave(st, CompileStmts(funcs, st, ss));
  }

  lemma {:induction false} SShapeStmts(funcs: seq<FuncDecl>, st: CS, ss: seq<Stmt>)
    ensures SShape(st, CompileStmts(funcs, st, ss))
    decreases ss, 0
  {
    hide SShape;
    hide CompileStmt;
    if ss == [] {
      SShapeRefl(st);
    } else {
      var st1 := CompileStmt(funcs, st, ss[0]);
      SShapeStmt(funcs, st, ss[0]);
      SShapeStmts(funcs, st1, ss[1..]);
      SShapeTrans(st, st1, CompileStmts(funcs, st1, ss[1..]));
    }
  }

  lemma {:induction false} SShapeStmt(funcs: seq<FuncDecl>, st: CS, s: Stmt)
    ensures SShape(st, CompileStmt(funcs, st, s))
    ensures !s.Let? ==> CompileStmt(funcs, st, s).locals == st.locals
    decreases s, 2
  {
    hide SShape;
    hide Alloc;
    hide Free;
    hide CompileBlock;
    hide CompileAssign;
    hide CompileIf;
    hide CompileWhile;
    hide CompileSwitch;
    hide CompileTry;
    hide EmitBreak;
    hide EmitContinue;
    hide CompileExpr;
    match s
    case Block(ss) => SShapeBlock(funcs, st, ss);
    case Let(name, e) => SShapeLet(funcs, st, name, e);
    case Assign(target, e) =>
      ShapeAssign(funcs, st, target, e);
      FromShape(st, CompileAssign(funcs, st, target, e));
    case ExprStmt(e) =>
      var (st1, r) := Alloc(st);
      ShapeExpr(funcs, st1, e, r);
      ShapeScoped(st, st1, r, CompileExpr(funcs, st1, e, r));
      FromShape(st, Free(CompileExpr(funcs, st1, e, r), r));
    case Return(None) => SEmit(st, MakeABC(RETN, 0, 0, 0));
    case Return(Some(e)) => ShapeUse(funcs, st, e, RET);
    case If(_, _, _) => SShapeIf(funcs, st, s);
    case While(_, _) => SShapeWhile(funcs, st, s);
    case Break => SShapeBreak(st);
    case Continue => SShapeContinue(st);
    case Switch(_, _, _) => SShapeSwitch(funcs, st, s);
    case Try(_, _, _) => SShapeTry(funcs, st, s);
    case Throw(e) => ShapeUse(funcs, st, e, THROW);
  }

  /** An expression into a temporary that one instruction consumes. */
  lemma ShapeUse(funcs: seq<FuncDecl>, st: CS, e: Expr, op: Byte)
    ensures var (st1, r) := Alloc(st);
      var st' := Free(Emit(CompileExpr(funcs, st1, e, r), MakeABC(op, r, 0, 0)), r);
      SShape(st, st') && st'.locals == st.locals
  {
    hide Shape;
    hide CompileExpr;
    hide Alloc;
    hide Free;
    var (st1, r) := Alloc(st);
    var st2 := CompileExpr(funcs, st1, e, r);
    var st3 := Emit(st2, MakeABC(op, r, 0, 0));
    ShapeExpr(funcs, st1, e, r);
    ShapeEmit(st2, MakeABC(op, r, 0, 0));
    ShapeTrans(st1, st2, st3);
    ShapeScoped(st, st1, r, st3);
    FromShape(st, Free(st3, r));
  }

  lemma SShapeLet(funcs: seq<FuncDecl>, st: CS, name: Text, e: Expr)
    ensures SShape(st, CompileStmt(funcs, st, Let(name, e)))
  {
    var (st1, r) := Alloc(st);
    var st2 := CompileExpr(funcs, st1, e, r);
    ShapeAlloc(st);
    ShapeExpr(funcs, st1, e, r);
    ShapeTrans(st, st1, st2);
    hide CompileExpr;
    hide Alloc;
    assert CompileStmt(funcs, st, Let(name, e)) == st2.(locals := st2.locals[name := r]);
    hide CompileStmt;
    LetLocals(st1, st2, name, r);
    FromShape(st, st2);
    var d := st2.(locals := st2.locals[name := r]);
    assert Breaks(d) == Breaks(st2);
    assert forall i :: NewBreak(st, d, i) <==> NewBreak(st, st2, i);
    assert Inv(st) && Fine(st2) ==> Inv(st1) && Held(st1, r);
    hide NewBreak;
    hide Shape;
  }

  lemma LetLocals(st1: CS, st2: CS, name: Text, r: Byte)
    requires Shape(st1, st2)
    ensures Inv(st1) && Fine(st2) && Held(st1, r) ==> Inv(st2.(locals := st2.locals[name := r]))
    ensures forall q :: Held(st2, q) <==> Held(st2.(locals := st2.locals[name := r]), q)
  {
  }

  lemma ShapeAssign(funcs: seq<FuncDecl>, st: CS, target: Expr, e: Expr)
    ensures Shape(st, CompileAssign(funcs, st, target, e))
  {
    hide Shape;
    hide CompileExpr;
    hide Alloc;
    hide Free;
    hide Intern;
    hide EmitSetField;
    match target
    case Ident(name) =>
      if name in st.locals {
        ShapeExpr(funcs, st, e, st.locals[name]);
      } else {
        var (st1, r) := Alloc(st);
        var st2 := CompileExpr(funcs, st1, e, r);
        var (st3, ki) := Intern(st2, CStr(name));
        var st4 := Emit(st3, MakeABx(STOREG, r, ki % 0x1_0000));
        ShapeExpr(funcs, st1, e, r);
        ShapeIntern(st2, CStr(name));
        ShapeEmit(st3, MakeABx(STOREG, r, ki % 0x1_0000));
        ShapeTrans(st1, st2, st3);
        ShapeTrans(st1, st3, st4);
        ShapeScoped(st, st1, r, st4);
      }
    case Index(x, i) =>
      var (st1, obj) := Alloc(st);
      var st2 := CompileExpr(funcs, st1, x, obj);
      var (st3, idx) := Alloc(st2);
      var st4 := CompileExpr(funcs, st3, i, idx);
      var (st5, val) := Alloc(st4);
      var st6 := CompileExpr(funcs, st5, e, val);
      var st7 := Emit(st6, MakeABC(SETI, obj, idx, val));
      ShapeExpr(funcs, st1, x, obj);
      ShapeExpr(funcs, st3, i, idx);
      ShapeExpr(funcs, st5, e, val);
      ShapeEmit(st6, MakeABC(SETI, obj, idx, val));
      ShapeTrans(st5, st6, st7);
      ShapeScoped3(st, st1, obj, st2, st3, idx, st4, st5, val, st7);
    case Field(x, name) =>
      var (st1, obj) := Alloc(st);
      var st2 := CompileExpr(funcs, st1, x, obj);
      var (st3, val) := Alloc(st2);
      var st4 := CompileExpr(funcs, st3, e, val);
      ShapeExpr(funcs, st1, x, obj);
      ShapeExpr(funcs, st3, e, val);
      ShapeSetField(st4, name, obj, val);
      ShapeTrans(st3, st4, EmitSetField(st4, name, obj, val));
      ShapeScoped2(st, st1, obj, st2, st3, val, EmitSetField(st4, name, obj, val));
    case _ => ShapeError(st);
  }

  lemma ShapeError(st: CS)
    ensures Shape(st, st.(errs := st.errs + 1))
  {
  }

  lemma ShapeSetField(st: CS, name: Text, obj: Byte, val: Byte)
    ensures Shape(st, EmitSetField(st, name, obj, val))
  {
    hide Shape;
    hide Intern;
    hide EmitSetKey;
    var (st1, ki) := Intern(st, CStr(name));
    ShapeIntern(st, CStr(name));
    ShapeSetKey(st1, ki, obj, val);
    ShapeTrans(st, st1, EmitSetKey(st1, ki, obj, val));
  }

  lemma ShapeScoped3(st: CS, st1: CS, r1: Byte, st2: CS, st3: CS, r2: Byte, st4: CS, st5: CS, r3: Byte, st6: CS)
    requires (st1, r1) == Alloc(st) && Shape(st1, st2) && (st3, r2) == Alloc(st2) && Shape(st3, st4)
    requires (st5, r3) == Alloc(st4) && Shape(st5, st6)
    ensures Shape(st, Free(Free(Free(st6, r1), r2), r3))
  {
    ShapeAlloc(st);
    ShapeAlloc(st2);
    ShapeAlloc(st4);
    ShapeFree(st6, r1);
    ShapeFree(Free(st6, r1), r2);
    ShapeFree(Free(Free(st6, r1), r2), r3);
    hide Alloc;
    hide Free;
  }

  lemma SShapeBreak(st: CS)
    ensures SShape(st, EmitBreak(st)) && EmitBreak(st).locals == st.locals
  {
    if st.loops == [] {
      ShapeError(st);
      FromShape(st, EmitBreak(st));
    } else {
      BreakRegs(st);
      BreakLoops(st);
      hide Inv;
      hide Keeps;
      hide EmitBreak;
      hide LoopsGrow;
      hide Waiting;
    }
  }

  lemma BreakLoops(st: CS)
    requires st.loops != []
    ensures var d := EmitBreak(st); LoopsGrow(st, d) && Waiting(st, d) && Grows(st, d) && d.locals == st.locals
  {
    hide MakeAsBx;
    var d := EmitBreak(st);
    var n := |st.loops| - 1;
    assert d.code[..|st.code|] == st.code && |d.code| == |st.code| + 1 && Pending(d.code[|st.code|]);
    assert d.loops == st.loops[n := d.loops[n]] && d.loops[n].cont == st.loops[n].cont;
    assert Breaks(d) == Breaks(st) + [|st.code|];
    hide EmitBreak;
    assert forall i :: NewBreak(st, d, i) ==> i == |st.code|;
    hide NewBreak;
    hide Breaks;
  }

  lemma BreakRegs(st: CS)
    ensures Inv(st) ==> Inv(EmitBreak(st)) && Keeps(st, EmitBreak(st))
  {
    hide MakeAsBx;
    assert forall q :: Held(EmitBreak(st), q) == Held(st, q);
  }

  lemma SShapeContinue(st: CS)
    ensures SShape(st, EmitContinue(st)) && EmitContinue(st).locals == st.locals
  {
    hide MakeAsBx;
    hide ToI16;
    if st.loops == [] {
      ShapeError(st);
      FromShape(st, EmitContinue(st));
    } else {
      SEmit(st, MakeAsBx(JMP, 0, ToI16(st.loops[|st.loops| - 1].cont - (|st.code| + 1))));
    }
  }

  /** IfJoin, between the block it closes and the rest. */
  lemma SShapeJoin(st: CS, st1: CS, st2: CS)
    requires SShape(st, st1) && Breaks(st1) == Breaks(st) && |st.code| < |st1.code| && SShape(st1, st2)
    ensures var st3 := IfJoin(st1, st2);
      SShape(st, st3) && st3.locals == st2.locals && |st3.code| == |st2.code| + 1 && !NewBreak(st, st3, |st2.code|)
      && st3.loops == st2.loops
  {
    hide MakeAsBx;
    hide PatchSbx;
    var c := Emit(st2, MakeAsBx(JMP, 0, 0));
    var off := |st2.code| + 1 - |st1.code|;
    assert IfJoin(st1, st2) == PatchSbx(c, |st1.code| - 1, off);
    hide IfJoin;
    hide SShape;
    hide NewBreak;
    SEmit(st2, MakeAsBx(JMP, 0, 0));
    hide Emit;
    SShapeTrans(st, st1, st2);
    SShapeTrans(st1, st2, c);
    NoBreak(st, st1, |st1.code| - 1);
    SShapePatch(st, st1, c, |st1.code| - 1, off);
    JoinBreak(st, st2, PatchSbx(c, |st1.code| - 1, off), |st2.code|);
  }

  lemma JoinBreak(st: CS, b: CS, c: CS, ip: int)
    requires SShape(st, b) && Breaks(c) == Breaks(b) && ip >= |b.code|
    ensures !NewBreak(st, c, ip)
  {
    assert NewBreak(st, c, ip) ==> NewBreak(st, b, ip);
  }

  lemma {:induction false} SShapeIf(funcs: seq<FuncDecl>, st: CS, s: Stmt)
    requires s.If?
    ensures SShape(st, CompileIf(funcs, st, s)) && CompileIf(funcs, st, s).locals == st.locals
    decreases s, 1
  {
    hide SShape;
    hide CondJump;
    hide CompileBlock;
    hide CompileStmt;
    hide MakeAsBx;
    hide IfJoin;
    var st1 := CondJump(funcs, st, s.cond);
    var st2 := CompileBlock(funcs, st1, s.thn);
    SShapeCondJump(funcs, st, s.cond);
    SShapeBlock(funcs, st1, s.thn);
    if s.els == None {
      NoBreak(st, st1, |st1.code| - 1);
      SShapePatch(st, st1, st2, |st1.code| - 1, |st2.code| - |st1.code|);
    } else {
      var st3 := IfJoin(st1, st2);
      SShapeJoin(st, st1, st2);
      SLenTrans(st, st1, st2);
      if s.els.value.Block? || s.els.value.If? {
        var st4 := CompileStmt(funcs, st3, s.els.value);
        SShapeStmt(funcs, st3, s.els.value);
        SShapePatch(st, st3, st4, |st2.code|, |st4.code| - |st2.code| - 1);
      } else {
        SShapeRefl(st3);
        SShapePatch(st, st3, st3, |st2.code|, |st3.code| - |st2.code| - 1);
      }
    }
  }

  lemma SLenTrans(a: CS, b: CS, c: CS)
    requires SShape(a, b) && SShape(b, c)
    ensures |a.code| <= |b.code| <= |c.code|
  {
  }

  lemma {:induction false} SShapeWhile(funcs: seq<FuncDecl>, st: CS, s: Stmt)
    requires s.While?
    ensures SShape(st, CompileWhile(funcs, st, s)) && CompileWhile(funcs, st, s).locals == st.locals
    decreases s, 1
  {
    hide SShape;
    hide CondJump;
    hide CompileBlock;
    hide MakeAsBx;
    hide ToI16;
    var st0 := st.(loops := st.loops + [Loop([], |st.code|)]);
    var st1 := CondJump(funcs, st0, s.cond);
    var st2 := CompileBlock(funcs, st1, s.body);
    var st3 := EmitJump(st2, JMP, 0, |st.code|);
    var st4 := PatchSbx(st3, |st1.code| - 1, |st3.code| - |st1.code|);
    SShapeCondJump(funcs, st0, s.cond);
    SShapeBlock(funcs, st1, s.body);
    SEmit(st2, MakeAsBx(JMP, 0, ToI16(|st.code| - (|st2.code| + 1))));
    SShapeTrans(st1, st2, st3);
    NoBreak(st0, st1, |st1.code| - 1);
    SShapePatch(st0, st1, st3, |st1.code| - 1, |st3.code| - |st1.code|);
    SShapePop(st, st0, st4, |st3.code|);
    assert st4.locals == st.locals;
  }

  lemma SShapePop(st: CS, st0: CS, st4: CS, end: nat)
    requires st0 == st.(loops := st.loops + [Loop([], |st.code|)]) && SShape(st0, st4)
    ensures SShape(st, PopLoop(st4, end)) && PopLoop(st4, end).locals == st4.locals
    ensures PopLoop(st4, end).loops == st.loops && |PopLoop(st4, end).code| == |st4.code|
  {
    var d := st4.(loops := st4.loops[..|st4.loops| - 1]);
    assert d.loops == st.loops;
    PopFacts(st, st0, st4, d);
    PatchAllShape(d, Breaks(st4), end);
    assert PopLoop(st4, end) == PatchAll(d, Breaks(st4), end);
    hide PopLoop;
    hide PatchAll;
    hide SShape;
    hide NewBreak;
    SShapePatchAll(st, d, Breaks(st4), end);
  }

  lemma PopFacts(st: CS, st0: CS, st4: CS, d: CS)
    requires st0 == st.(loops := st.loops + [Loop([], |st.code|)]) && SShape(st0, st4)
    requires d == st4.(loops := st.loops)
    ensures SShape(st, d)
    ensures forall i :: i in Breaks(st4) ==> |st.code| <= i && !NewBreak(st, d, i)
  {
    assert forall q :: Held(st0, q) == Held(st, q);
    assert forall q :: Held(d, q) == Held(st4, q);
    assert forall i :: !NewBreak(st, d, i);
    forall i | i in Breaks(st4)
      ensures |st.code| <= i
    {
      assert NewBreak(st0, st4, i);
    }
    hide NewBreak;
  }

  lemma {:induction false} SShapeTry(funcs: seq<FuncDecl>, st: CS, s: Stmt)
    requires s.Try?
    ensures SShape(st, CompileTry(funcs, st, s)) && CompileTry(funcs, st, s).locals == st.locals
    decreases s, 1
  {
    hide SShape;
    hide CompileBlock;
    hide MakeAsBx;
    hide TryBody;
    hide Alloc;
    var (st1, er) := Alloc(st);
    var st2 := TryBody(funcs, st1, s, er);
    var st2a := st2.(locals := st2.locals[s.errName := er]);
    var st3a := CompileBlock(funcs, st2a, s.handler);
    var st3 := st3a.(locals := st2.locals);
    var st4 := PatchSbx(st3, |st2.code| - 1, |st3.code| - |st2.code|);
    assert CompileTry(funcs, st, s) == Free(st4, er);
    assert Free(st4, er).locals == st2.locals;
    hide Free;
    hide PatchSbx;
    ShapeAlloc(st);
    SShapeTryBody(funcs, st1, s, er);
    SShapeBlock(funcs, st2a, s.handler);
    TryRegs(st, st1, er, st2, s.errName, st3a);
    ShapeLocals(st, st1);
    SPatch(st, st3, |st2.code| - 1, |st3.code| - |st2.code|);
    assert forall q :: Held(st4, q) == Held(st3, q);
    SFree(st, st4, er);
  }

  lemma SFree(st: CS, st2: CS, r: Byte)
    requires SShape(st, st2) && (Inv(st) && Fine(st2) ==> Held(st2, r) && !Held(st, r))
    ensures SShape(st, Free(st2, r))
  {
    ShapeFree(st2, r);
    assert Breaks(Free(st2, r)) == Breaks(st2);
    assert forall i :: NewBreak(st, Free(st2, r), i) <==> NewBreak(st, st2, i);
    hide Free;
    hide NewBreak;
  }

  /** The error variable is a local of the handler: its register stays in use until the end. */
  lemma TryRegs(st: CS, st1: CS, er: Byte, st2: CS, name: Text, st3a: CS)
    requires (st1, er) == Alloc(st) && SShape(st1, st2) && SShape(st2.(locals := st2.locals[name := er]), st3a)
    requires st2.locals == st1.locals && |st1.code| < |st2.code| && !NewBreak(st1, st2, |st2.code| - 1)
    ensures var st3 := st3a.(locals := st2.locals);
      && SShape(st, st3) && |st.code| <= |st2.code| - 1 && !NewBreak(st, st3, |st2.code| - 1)
      && (Inv(st) && Fine(st3) ==> Held(st3, er) && !Held(st, er))
  {
    ShapeAlloc(st);
    FromShape(st, st1);
    SShapeTrans(st, st1, st2);
    var st2a := st2.(locals := st2.locals[name := er]);
    var st3 := st3a.(locals := st2.locals);
    assert forall i :: NewBreak(st, st2a, i) <==> NewBreak(st1, st2, i) by {
      assert Breaks(st2a) == Breaks(st2) && Breaks(st) == Breaks(st1);
    }
    assert Breaks(st3) == Breaks(st3a);
    assert forall i :: NewBreak(st, st3, i) <==> NewBreak(st, st3a, i);
    hide Alloc;
    assert forall q :: Held(st2a, q) == Held(st2, q);
    assert Inv(st) && Fine(st2) ==> Held(st2, er);
    assert Inv(st) && Fine(st2) ==> Inv(st2a);
    assert SShape(st, st2a) by { hide NewBreak; }
    SShapeTrans(st, st2a, st3a);
    BreakSplit(st, st2a, st3a, |st2.code| - 1);
    NoBreak(st2a, st3a, |st2.code| - 1);
    hide NewBreak;
    InvRestore(st, st2, st3a, name, er);
  }

  lemma InvRestore(st: CS, st2: CS, st3a: CS, name: Text, er: Byte)
    requires SShape(st.(locals := st2.locals), st2.(locals := st2.locals[name := er])) && st.locals == st2.locals
    requires SShape(st2.(locals := st2.locals[name := er]), st3a)
    ensures Inv(st) && Fine(st3a) ==> Inv(st3a.(locals := st2.locals)) && Keeps(st, st3a.(locals := st2.locals))
    ensures Inv(st) && Fine(st3a) && Held(st2, er) ==> Held(st3a.(locals := st2.locals), er)
  {
    var st2a := st2.(locals := st2.locals[name := er]);
    assert st.(locals := st2.locals) == st;
    assert forall q :: Held(st3a.(locals := st2.locals), q) == Held(st3a, q);
    assert forall q :: Held(st2a, q) == Held(st2, q);
  }

  lemma TryTailIs(b: CS)
    ensures var d := TryTail(b);
      && |d.code| == |b.code| + 2 && d == b.(code := d.code) && b.code <= d.code
      && d.code[|b.code|] == MakeABC(ENDTRY, 0, 0, 0) && Pending(d.code[|b.code| + 1])
  {
  }

  lemma TryJoinIs(st1: CS, b: CS)
    ensures TryJoin(st1, b) == PatchSbx(TryTail(b), |st1.code|, |b.code| + 1 - |st1.code|)
  {
    hide TryTail;
    hide PatchSbx;
  }

  lemma TryBodyIs(funcs: seq<FuncDecl>, st1: CS, s: Stmt, er: Byte)
    requires s.Try?
    ensures TryBody(funcs, st1, s, er) == TryJoin(st1, CompileBlock(funcs, Emit(st1, MakeAsBx(TRY, er, 0)), s.body))
  {
    hide CompileBlock;
    hide MakeAsBx;
    hide TryJoin;
  }

  lemma {:induction false} SShapeTryBody(funcs: seq<FuncDecl>, st1: CS, s: Stmt, er: Byte)
    requires s.Try?
    ensures var st2 := TryBody(funcs, st1, s, er);
      SShape(st1, st2) && st2.locals == st1.locals && |st1.code| < |st2.code| && !NewBreak(st1, st2, |st2.code| - 1)
    decreases s, 0
  {
    hide SShape;
    hide CompileBlock;
    hide MakeAsBx;
    var a := Emit(st1, MakeAsBx(TRY, er, 0));
    var b := CompileBlock(funcs, a, s.body);
    var c := Emit(b, MakeABC(ENDTRY, 0, 0, 0));
    var d := Emit(c, MakeAsBx(JMP, 0, 0));
    SEmit(st1, MakeAsBx(TRY, er, 0));
    SShapeBlock(funcs, a, s.body);
    SEmit(b, MakeABC(ENDTRY, 0, 0, 0));
    SEmit(c, MakeAsBx(JMP, 0, 0));
    SShapeTrans(a, b, c);
    SShapeTrans(a, c, d);
    SLen(a, b);
    NoBreak(st1, a, |st1.code|);
    SShapePatch(st1, a, d, |st1.code|, |d.code| - |st1.code| - 1);
    var e := PatchSbx(d, |st1.code|, |d.code| - |st1.code| - 1);
    assert Breaks(e) == Breaks(b);
    SShapeTrans(st1, a, b);
    JoinBreak(st1, b, e, |d.code| - 1);
  }

  // ---- switch ----

  lemma ShapeTest(funcs: seq<FuncDecl>, st: CS, v: Expr, tag: Byte, m: Byte)
    ensures Shape(st, CompileTest(funcs, st, v, tag, m))
  {
    hide Shape;
    hide CompileExpr;
    hide EmitTest;
    hide Alloc;
    hide Free;
    var (st1, vr) := Alloc(st);
    var st2 := CompileExpr(funcs, st1, v, vr);
    var (st3, eq) := Alloc(st2);
    var st4 := EmitTest(st3, tag, m, vr, eq);
    ShapeExpr(funcs, st1, v, vr);
    ShapeEmitTest(st3, tag, m, vr, eq);
    ShapeScoped2(st, st1, vr, st2, st3, eq, st4);
  }

  lemma ShapeEmitTest(st: CS, tag: Byte, m: Byte, vr: Byte, eq: Byte)
    ensures Shape(st, EmitTest(st, tag, m, vr, eq))
  {
    hide Shape;
    hide MakeAsBx;
    var st1 := Emit(st, MakeABC(EQ, eq, tag, vr));
    var st2 := Emit(st1, MakeAsBx(JT, m, 0));
    var st3 := Emit(st2, MakeABC(MOVE, m, eq, 0));
    ShapeEmit(st, MakeABC(EQ, eq, tag, vr));
    ShapeEmit(st1, MakeAsBx(JT, m, 0));
    ShapeEmit(st2, MakeABC(MOVE, m, eq, 0));
    ShapeTrans(st, st1, st2);
    ShapeTrans(st, st2, st3);
    ShapePatch(st, st3, |st1.code|, 1);
  }

  lemma {:induction false} ShapeMatch(funcs: seq<FuncDecl>, st: CS, values: seq<Expr>, tag: Byte, m: Byte)
    ensures Shape(st, CompileMatch(funcs, st, values, tag, m))
    decreases |values|
  {
    hide CompileTest;
    if values != [] {
      var st1 := CompileTest(funcs, st, values[0], tag, m);
      ShapeTest(funcs, st, values[0], tag, m);
      ShapeMatch(funcs, st1, values[1..], tag, m);
      hide Shape;
      ShapeTrans(st, st1, CompileMatch(funcs, st1, values[1..], tag, m));
    }
  }

  lemma ShapeCaseFront(funcs: seq<FuncDecl>, st: CS, values: seq<Expr>, tag: Byte)
    ensures Shape(st, CaseFront(funcs, st, values, tag))
    ensures |st.code| < |CaseFront(funcs, st, values, tag).code|
  {
    hide MakeAsBx;
    hide CompileMatch;
    hide Alloc;
    var (st1, m) := Alloc(st);
    var st1a := Emit(st1, MakeABC(LOADB, m, 0, 0));
    var st2 := CompileMatch(funcs, st1a, values, tag, m);
    var st3 := Emit(st2, MakeAsBx(JF, m, 0));
    assert CaseFront(funcs, st, values, tag) == Free(st3, m);
    assert |Free(st3, m).code| == |st2.code| + 1;
    hide Free;
    hide CaseFront;
    hide Shape;
    ShapeEmit(st1, MakeABC(LOADB, m, 0, 0));
    ShapeMatch(funcs, st1a, values, tag, m);
    ShapeEmit(st2, MakeAsBx(JF, m, 0));
    ShapeTrans(st1, st1a, st2);
    ShapeTrans(st1, st2, st3);
    ShapeScoped(st, st1, m, st3);
    ShapeAlloc(st);
    ShapeLen(st, st1);
    ShapeLen(st1, st2);
  }

  lemma {:induction false} SShapeCase(funcs: seq<FuncDecl>, st: CS, c: Case, tag: Byte)
    ensures var (st', end) := CompileCase(funcs, st, c, tag);
      && SShape(st, st') && st'.locals == st.locals && |st.code| <= end == |st'.code| - 1
      && !NewBreak(st, st', end) && Pending(st'.code[end])
    decreases c, 0
  {
    hide SShape;
    hide CaseFront;
    hide CompileBlock;
    hide IfJoin;
    var st1 := CaseFront(funcs, st, c.values, tag);
    var st2 := CompileBlock(funcs, st1, c.body);
    ShapeCaseFront(funcs, st, c.values, tag);
    FromShape(st, st1);
    ShapeLoops(st, st1);
    SShapeBlock(funcs, st1, c.body);
    SShapeJoin(st, st1, st2);
    SLenTrans(st, st1, st2);
    JoinPending(st1, st2);
  }

  lemma ShapeLoops(a: CS, b: CS)
    requires Shape(a, b)
    ensures a.loops == b.loops && Breaks(a) == Breaks(b)
  {
  }

  lemma JoinPending(st1: CS, st2: CS)
    requires |st1.code| <= |st2.code|
    ensures |IfJoin(st1, st2).code| == |st2.code| + 1
    ensures Pending(IfJoin(st1, st2).code[|st2.code|])
  {
    hide MakeAsBx;
  }

  /** The jumps that leave the switch are unpatched, and none is a break of the enclosing loop. */
  lemma {:induction false} SShapeCases(funcs: seq<FuncDecl>, st: CS, cases: seq<Case>, tag: Byte)
    ensures var (st', ends) := CompileCases(funcs, st, cases, tag);
      && SShape(st, st') && st'.locals == st.locals
      && forall i :: i in ends ==> |st.code| <= i < |st'.code| && !NewBreak(st, st', i) && Pending(st'.code[i])
    decreases cases, 0
  {
    hide SShape;
    hide CompileCase;
    hide NewBreak;
    hide MakeAsBx;
    if cases == [] {
      SShapeRefl(st);
    } else {
      var (st1, end) := CompileCase(funcs, st, cases[0], tag);
      var (st2, ends) := CompileCases(funcs, st1, cases[1..], tag);
      SShapeCase(funcs, st, cases[0], tag);
      SShapeCases(funcs, st1, cases[1..], tag);
      SShapeTrans(st, st1, st2);
      forall i | i in [end] + ends
        ensures |st.code| <= i < |st2.code| && !NewBreak(st, st2, i) && Pending(st2.code[i])
      {
        SLenTrans(st, st1, st2);
        if i == end {
          EndStays(st, st1, st2, i);
        } else {
          assert i in ends;
          EndLater(st, st1, st2, i);
        }
      }
    }
  }

  lemma EndStays(st: CS, st1: CS, st2: CS, i: int)
    requires SShape(st, st1) && SShape(st1, st2) && 0 <= i < |st1.code| && !NewBreak(st, st1, i)
    ensures !NewBreak(st, st2, i) && i < |st2.code| && st2.code[i] == st1.code[i]
  {
    BreakSplit(st, st1, st2, i);
    NoBreak(st1, st2, i);
  }

  lemma EndLater(st: CS, st1: CS, st2: CS, i: int)
    requires SShape(st, st1) && SShape(st1, st2) && |st1.code| <= i && !NewBreak(st1, st2, i)
    ensures !NewBreak(st, st2, i)
  {
    BreakSplit(st, st1, st2, i);
    NoBreak(st, st1, i);
  }

  lemma {:induction false} SShapeSwitch(funcs: seq<FuncDecl>, st: CS, s: Stmt)
    requires s.Switch?
    ensures SShape(st, CompileSwitch(funcs, st, s)) && CompileSwitch(funcs, st, s).locals == st.locals
    decreases s, 1
  {
    hide CompileExpr;
    hide CompileCases;
    hide CompileBlock;
    hide SShape;
    hide Alloc;
    hide PatchAll;
    var (st1, tr) := Alloc(st);
    var st2 := CompileExpr(funcs, st1, s.tag, tr);
    var (st3, ends) := CompileCases(funcs, st2, s.cases, tr);
    var st4 := if s.default.Default? then CompileBlock(funcs, st3, s.default.body) else st3;
    var st5 := PatchAll(st4, ends, |st4.code|);
    assert CompileSwitch(funcs, st, s) == Free(st5, tr);
    assert Free(st5, tr).locals == st5.locals;
    hide Free;
    hide CompileSwitch;
    ShapeExpr(funcs, st1, s.tag, tr);
    FromShape(st1, st2);
    SShapeCases(funcs, st2, s.cases, tr);
    if s.default.Default? {
      SShapeBlock(funcs, st3, s.default.body);
    } else {
      SShapeRefl(st3);
    }
    SShapeTrans(st2, st3, st4);
    forall i | i in ends
      ensures |st2.code| <= i && !NewBreak(st2, st4, i)
    {
      EndStays(st2, st3, st4, i);
    }
    SShapePatchAll(st2, st4, ends, |st4.code|);
    PatchAllShape(st4, ends, |st4.code|);
    SShapeTrans(st1, st2, st5);
    SShapeScoped(st, st1, tr, st5);
    ShapeAlloc(st);
    ShapeLocals(st, st1);
  }

  // ---- the breaks of a loop ----

  lemma AllNew(c: CS, b: CS, i: int)
    requires Breaks(c) == []
    ensures NewBreak(c, b, i) <==> i in Breaks(b)
  {
    hide Breaks;
    if i in Breaks(b) {
      var j :| 0 <= j < |Breaks(b)| && Breaks(b)[j] == i;
    }
  }

  lemma FirstBreaks(c: CS, b: CS)
    requires SShape(c, b) && Breaks(c) == []
    ensures forall i :: NewBreak(c, b, i) <==> i in Breaks(b)
    ensures forall i :: i in Breaks(b) ==> |c.code| <= i < |b.code| && Pending(b.code[i])
  {
    forall i
      ensures NewBreak(c, b, i) <==> i in Breaks(b)
    {
      AllNew(c, b, i);
    }
    hide NewBreak;
    hide Breaks;
    hide Inv;
    hide Keeps;
    hide Grows;
    hide MakeAsBx;
  }

  lemma PopIs(b: CS, p: CS, end: nat)
    requires p.loops == b.loops && p.loops != []
    ensures PopLoop(p, end) == PatchAll(p.(loops := p.loops[..|p.loops| - 1]), Breaks(b), end)
  {
    hide PatchAll;
  }
}
